/**
 The replay buffer: collecting transitions by rolling out the exploratory
 policy against the environment until the buffer holds `bufferSize` of them,
 drawing mini-batches without replacement, and the per-epoch update.

 The environment and the random source are oracles indexed by the number of
 environment steps already taken during the current fill: `reset(k)` is the
 observation returned by a reset issued before the k-th step, `step(k, a)` the
 response to action `a` at the k-th step; `explore(k)`, `coin(k)` and
 `stop(k)` are the uniform draws the k-th step may consume.
 */
module Replay {
  import opened Types
  import Agents

  const DefaultBufferSize: int := 1280
  const DefaultBatchSize: int := 128
  const EndFactorDecay: real := 0.9

  /**
   `replayBuffer` is the separate attribute the per-epoch update writes to; it
   does not exist (None) until the first update.
   */
  datatype ReplayBuffer = ReplayBuffer(
    buffer: seq<Transition>,
    bufferSize: int,
    endFactor: real,
    replayBuffer: Option<seq<Transition>>)

  datatype Env = Env(reset: nat -> State, step: (nat, nat) -> StepResult)

  /** `pick(b, i)` stands for the i-th bounded integer draw made for batch `b`. */
  datatype Rng = Rng(explore: nat -> real, coin: nat -> bool, stop: nat -> real, pick: (nat, nat) -> nat)

  /** Everything a fill interacts with besides the buffer itself. */
  datatype Rollout = Rollout(agent: Agents.Agent, net: Agents.Network, env: Env, rng: Rng)

  datatype Stored = Stored(rb: ReplayBuffer, nextState: State, done: bool)

  function NewReplayBuffer(bufferSize: int): (rb: ReplayBuffer)
    ensures |rb.buffer| == 0 && rb.bufferSize == bufferSize
    ensures rb.endFactor == 0.0 && rb.replayBuffer == None
  {
    ReplayBuffer([], bufferSize, 0.0, None)
  }

  // ---------------------------------------------------------------------------
  // Collection
  // ---------------------------------------------------------------------------

  /** The exploratory action the agent takes in `state` at the k-th step. */
  function ActionAt(ro: Rollout, k: nat, state: State): (a: nat)
    requires Agents.ValidNetwork(ro.net)
    ensures a < NumActions
    ensures ro.rng.explore(k) < ro.agent.epsilon ==> a == (if ro.rng.coin(k) then 1 else 0)
    ensures !(ro.rng.explore(k) < ro.agent.epsilon) ==> Agents.IsFirstMax(ro.net(ro.agent.qWeights, state), a)
  {
    Agents.Policy(ro.net(ro.agent.qWeights, state), ro.agent.epsilon, true, ro.rng.explore(k), ro.rng.coin(k))
  }

  /**
   `t` is what the k-th step records: the policy's action for `t.state`, and
   the environment's reward, next observation and end-of-episode flag for it.
   */
  ghost predicate Recorded(t: Transition, k: nat, ro: Rollout)
    requires Agents.ValidNetwork(ro.net)
  {
    var r := ro.env.step(k, t.action);
    && t.action == ActionAt(ro, k, t.state)
    && t.reward == r.reward
    && t.nextState == r.nextState
    && t.done == r.Done()
  }

  /** After recording `t` at step k the fill keeps going in the same episode. */
  predicate Continues(t: Transition, k: nat, endFactor: real, rng: Rng) {
    !t.done && !(rng.stop(k) < endFactor)
  }

  /**
   Entry j of `b` (collected as step j - n0 of a fill that started with n0
   entries) was recorded from the right state: a fresh reset when it opens an
   episode, the previous entry's next observation otherwise.
   */
  ghost predicate Collected(b: seq<Transition>, n0: nat, j: nat, endFactor: real, ro: Rollout)
    requires Agents.ValidNetwork(ro.net)
    requires n0 <= j < |b|
  {
    && Recorded(b[j], j - n0, ro)
    && b[j].state ==
         if j == n0 || !Continues(b[j - 1], j - 1 - n0, endFactor, ro.rng)
         then ro.env.reset(j - n0)
         else b[j - 1].nextState
  }

  /**
   Every entry of `b` from position `n0` on was collected by the rollout `ro`,
   in a fill that started with `n0` entries.
   */
  ghost predicate FilledBy(b: seq<Transition>, n0: nat, endFactor: real, ro: Rollout)
    requires Agents.ValidNetwork(ro.net)
  {
    n0 <= |b| && forall j :: n0 <= j < |b| ==> Collected(b, n0, j, endFactor, ro)
  }

  /**
   A fill by an agent whose epsilon is 1 explores at every step (the uniform
   draws lie in [0, 1)): every collected action is the random integer draw,
   whatever the network estimates.
   */
  lemma ExploringFill(b: seq<Transition>, n0: nat, endFactor: real, ro: Rollout)
    requires Agents.ValidNetwork(ro.net)
    requires FilledBy(b, n0, endFactor, ro)
    requires ro.agent.epsilon == Agents.InitialEpsilon
    requires forall k :: ro.rng.explore(k) < 1.0
    ensures forall j :: n0 <= j < |b| ==> b[j].action == (if ro.rng.coin(j - n0) then 1 else 0)
  {
    forall j | n0 <= j < |b|
      ensures b[j].action == (if ro.rng.coin(j - n0) then 1 else 0)
    {
      assert Collected(b, n0, j, endFactor, ro);
    }
  }

  /** Acts in `state`, steps the environment and appends exactly one transition. */
  function StoreExperience(rb: ReplayBuffer, ro: Rollout, k: nat, state: State): (res: Stored)
    requires Agents.ValidNetwork(ro.net)
    ensures |res.rb.buffer| == |rb.buffer| + 1
    ensures res.rb.buffer[..|rb.buffer|] == rb.buffer
    ensures res.rb.buffer[|rb.buffer|].state == state
    ensures Recorded(res.rb.buffer[|rb.buffer|], k, ro)
    ensures res.nextState == res.rb.buffer[|rb.buffer|].nextState
    ensures res.done == res.rb.buffer[|rb.buffer|].done
    ensures res.rb.bufferSize == rb.bufferSize && res.rb.endFactor == rb.endFactor
    ensures res.rb.replayBuffer == rb.replayBuffer
  {
    var action := ActionAt(ro, k, state);
    var r := ro.env.step(k, action);
    var done := r.terminated || r.truncated;
    Stored(rb.(buffer := rb.buffer + [Transition(state, action, r.reward, r.nextState, done)]), r.nextState, done)
  }

  lemma CollectedExtends(b: seq<Transition>, t: Transition, n0: nat, endFactor: real, ro: Rollout)
    requires Agents.ValidNetwork(ro.net)
    requires n0 <= |b|
    requires forall j :: n0 <= j < |b| ==> Collected(b, n0, j, endFactor, ro)
    ensures forall j :: n0 <= j < |b| ==> Collected(b + [t], n0, j, endFactor, ro)
  {
    forall j | n0 <= j < |b|
      ensures Collected(b + [t], n0, j, endFactor, ro)
    {
      assert Collected(b, n0, j, endFactor, ro);
      assert (b + [t])[j] == b[j];
      if j > n0 {
        assert (b + [t])[j - 1] == b[j - 1];
      }
    }
  }

  /**
   Against an environment that terminates every episode after one step with
   reward 1, every collected transition is terminal, pays 1, and starts from a
   fresh reset.
   */
  lemma OneStepEpisodesCollect(b: seq<Transition>, n0: nat, endFactor: real, ro: Rollout)
    requires Agents.ValidNetwork(ro.net)
    requires n0 <= |b|
    requires forall k, a :: ro.env.step(k, a).terminated && ro.env.step(k, a).reward == 1.0
    requires forall j :: n0 <= j < |b| ==> Collected(b, n0, j, endFactor, ro)
    ensures forall j :: n0 <= j < |b| ==>
              b[j].done && b[j].reward == 1.0 && b[j].state == ro.env.reset(j - n0)
  {
    forall j | n0 <= j < |b|
      ensures b[j].done && b[j].reward == 1.0 && b[j].state == ro.env.reset(j - n0)
    {
      assert Collected(b, n0, j, endFactor, ro);
      if j > n0 {
        assert Collected(b, n0, j - 1, endFactor, ro);
      }
    }
  }

  /**
   Starts episodes and stores experience until the buffer holds `bufferSize`
   transitions. An episode is left when it ends, when the stop draw falls
   below `endFactor`, or when the buffer is full. `resets` counts the episodes
   started.
   */
  method FillBuffer(rb: ReplayBuffer, ro: Rollout) returns (filled: ReplayBuffer, resets: nat)
    requires Agents.ValidNetwork(ro.net)
    ensures filled.bufferSize == rb.bufferSize && filled.endFactor == rb.endFactor
    ensures filled.replayBuffer == rb.replayBuffer
    ensures |rb.buffer| >= rb.bufferSize ==> filled == rb && resets == 0
    ensures |rb.buffer| < rb.bufferSize ==> |filled.buffer| == rb.bufferSize
    ensures |rb.buffer| < rb.bufferSize ==> 0 < resets <= rb.bufferSize - |rb.buffer|
    ensures |filled.buffer| >= rb.bufferSize
    ensures rb.buffer <= filled.buffer
    ensures forall j :: |rb.buffer| <= j < |filled.buffer| ==>
              Collected(filled.buffer, |rb.buffer|, j, rb.endFactor, ro)
    ensures forall j :: |rb.buffer| <= j < |filled.buffer| ==> filled.buffer[j].action < NumActions
  {
    var cur := rb;
    var n0 := |rb.buffer|;
    resets := 0;
    while |cur.buffer| < cur.bufferSize
      invariant cur.bufferSize == rb.bufferSize && cur.endFactor == rb.endFactor
      invariant cur.replayBuffer == rb.replayBuffer
      invariant n0 <= |cur.buffer|
      invariant n0 < rb.bufferSize ==> |cur.buffer| <= rb.bufferSize
      invariant rb.buffer <= cur.buffer
      invariant resets <= |cur.buffer| - n0
      invariant resets == 0 ==> cur == rb
      invariant n0 >= rb.bufferSize ==> resets == 0
      invariant |cur.buffer| > n0 ==> resets > 0
      invariant forall j :: n0 <= j < |cur.buffer| ==> Collected(cur.buffer, n0, j, rb.endFactor, ro)
      invariant n0 < |cur.buffer| < rb.bufferSize ==>
                  !Continues(cur.buffer[|cur.buffer| - 1], |cur.buffer| - 1 - n0, rb.endFactor, ro.rng)
      decreases rb.bufferSize - |cur.buffer|
    {
      var state := ro.env.reset(|cur.buffer| - n0);
      resets := resets + 1;
      ghost var start := |cur.buffer|;
      var leave := false;
      while !leave
        invariant cur.bufferSize == rb.bufferSize && cur.endFactor == rb.endFactor
        invariant cur.replayBuffer == rb.replayBuffer
        invariant n0 <= start <= |cur.buffer| <= rb.bufferSize
        invariant rb.buffer <= cur.buffer
        invariant 0 < resets <= start - n0 + 1
        invariant forall j :: n0 <= j < |cur.buffer| ==> Collected(cur.buffer, n0, j, rb.endFactor, ro)
        invariant start == n0 || !Continues(cur.buffer[start - 1], start - 1 - n0, rb.endFactor, ro.rng)
        invariant !leave ==> |cur.buffer| < rb.bufferSize
        invariant !leave ==> state == if |cur.buffer| == start then ro.env.reset(start - n0)
                                      else cur.buffer[|cur.buffer| - 1].nextState
        invariant !leave && |cur.buffer| > start ==>
                    Continues(cur.buffer[|cur.buffer| - 1], |cur.buffer| - 1 - n0, rb.endFactor, ro.rng)
        invariant leave ==> start < |cur.buffer|
        invariant leave && |cur.buffer| < rb.bufferSize ==>
                    !Continues(cur.buffer[|cur.buffer| - 1], |cur.buffer| - 1 - n0, rb.endFactor, ro.rng)
        decreases rb.bufferSize - |cur.buffer|
      {
        var k := |cur.buffer| - n0;
        var stored := StoreExperience(cur, ro, k, state);
        CollectedExtends(cur.buffer, stored.rb.buffer[|cur.buffer|], n0, rb.endFactor, ro);
        assert stored.rb.buffer == cur.buffer + [stored.rb.buffer[|cur.buffer|]];
        cur := stored.rb;
        state := stored.nextState;
        if stored.done || ro.rng.stop(k) < cur.endFactor || |cur.buffer| >= cur.bufferSize {
          leave := true;
        }
      }
    }
    filled := cur;
    forall j | n0 <= j < |filled.buffer|
      ensures filled.buffer[j].action < NumActions
    {
      assert Collected(filled.buffer, n0, j, rb.endFactor, ro);
    }
  }

  // ---------------------------------------------------------------------------
  // Sampling
  // ---------------------------------------------------------------------------

  /** Number of elements of Python's range(0, stop, step). */
  function RangeCount(stop: int, step: int): (n: nat)
    requires step != 0
    ensures step > 0 ==> n * step >= stop && (n == 0 || (n - 1) * step < stop)
    ensures step < 0 ==> n * step <= stop && (n == 0 || (n - 1) * step > stop)
  {
    if step > 0 then
      (if stop <= 0 then 0 else (stop + step - 1) / step)
    else
      (if stop >= 0 then 0 else (-stop - step - 1) / -step)
  }

  /**
   Selection of `k` positions out of `n` without replacement, as the pool
   method of the standard library does it: draw(i) is reduced into the `n - i`
   positions still in the pool, the chosen one leaves the pool and the pool's
   last live entry takes its place.
   */
  method SamplePositions(n: nat, k: nat, draw: nat -> nat) returns (positions: seq<nat>)
    requires k <= n
    ensures |positions| == k
    ensures forall i :: 0 <= i < k ==> positions[i] < n
    ensures forall i, j :: 0 <= i < j < k ==> positions[i] != positions[j]
  {
    var pool: seq<nat> := seq(n, a requires 0 <= a < n => a as nat);
    positions := [];
    for i := 0 to k
      invariant |pool| == n && |positions| == i
      invariant forall a :: 0 <= a < n - i ==> pool[a] < n
      invariant forall c :: 0 <= c < i ==> positions[c] < n
      invariant forall a, b :: 0 <= a < b < n - i ==> pool[a] != pool[b]
      invariant forall c, d :: 0 <= c < d < i ==> positions[c] != positions[d]
      invariant forall a, c :: 0 <= a < n - i && 0 <= c < i ==> pool[a] != positions[c]
    {
      var j := draw(i) % (n - i);
      positions := positions + [pool[j]];
      pool := pool[j := pool[n - i - 1]];
    }
  }

  function Gather(buffer: seq<Transition>, positions: seq<nat>): (batch: seq<Transition>)
    requires forall i :: 0 <= i < |positions| ==> positions[i] < |buffer|
    ensures |batch| == |positions|
    ensures forall i :: 0 <= i < |positions| ==> batch[i] == buffer[positions[i]]
  {
    seq(|positions|, i requires 0 <= i < |positions| => buffer[positions[i]])
  }

  datatype SampleError = ZeroStep | SampleLargerThanPopulation

  /** One drawn batch together with the buffer positions it was drawn from. */
  datatype Sample = Sample(positions: seq<nat>, batch: seq<Transition>)

  /** The transitions of each drawn batch, in drawing order. */
  function Batches(samples: seq<Sample>): (batches: seq<seq<Transition>>)
    ensures |batches| == |samples|
    ensures forall b :: 0 <= b < |samples| ==> batches[b] == samples[b].batch
  {
    seq(|samples|, b requires 0 <= b < |samples| => samples[b].batch)
  }

  /** `k` entries of `buffer`, at pairwise distinct positions. */
  predicate ValidSample(s: Sample, buffer: seq<Transition>, k: int) {
    && |s.positions| == k
    && |s.batch| == k
    && (forall i :: 0 <= i < k ==> s.positions[i] < |buffer| && s.batch[i] == buffer[s.positions[i]])
    && (forall i, j :: 0 <= i < j < k ==> s.positions[i] != s.positions[j])
  }

  /**
   One batch per element of range(0, bufferSize, batchSize), each a sample
   without replacement from the whole buffer. A zero step and a sample larger
   than the buffer (or negative) are the errors the program raises.
   */
  method SampleBuffer(rb: ReplayBuffer, batchSize: int, rng: Rng) returns (r: Result<seq<Sample>, SampleError>)
    ensures r == Err(ZeroStep) <==> batchSize == 0
    ensures r == Err(SampleLargerThanPopulation) <==>
              batchSize != 0 &&
              RangeCount(rb.bufferSize, batchSize) > 0 && (batchSize < 0 || batchSize > |rb.buffer|)
    ensures r.Ok? ==> |r.value| == RangeCount(rb.bufferSize, batchSize)
    ensures r.Ok? ==> forall b :: 0 <= b < |r.value| ==> ValidSample(r.value[b], rb.buffer, batchSize)
  {
    if batchSize == 0 {
      return Err(ZeroStep);
    }
    var count := RangeCount(rb.bufferSize, batchSize);
    if count > 0 && (batchSize < 0 || batchSize > |rb.buffer|) {
      return Err(SampleLargerThanPopulation);
    }
    var samples: seq<Sample> := [];
    for b := 0 to count
      invariant |samples| == b
      invariant forall c :: 0 <= c < b ==> ValidSample(samples[c], rb.buffer, batchSize)
    {
      var positions := SamplePositions(|rb.buffer|, batchSize, (i: nat) => rng.pick(b, i));
      samples := samples + [Sample(positions, Gather(rb.buffer, positions))];
    }
    return Ok(samples);
  }

  // ---------------------------------------------------------------------------
  // Per-epoch update
  // ---------------------------------------------------------------------------

  /**
   The update as the program performs it: it assigns an empty list to the
   separate `replayBuffer` attribute, so the sampled-from `buffer` keeps its
   contents, and decays the early-stop probability.
   */
  function Update(rb: ReplayBuffer): (next: ReplayBuffer)
    ensures next.buffer == rb.buffer && next.bufferSize == rb.bufferSize
    ensures next.replayBuffer == Some([])
    ensures next.endFactor == EndFactorDecay * rb.endFactor
  {
    rb.(replayBuffer := Some([]), endFactor := rb.endFactor * EndFactorDecay)
  }

  /** The update as evidently intended: the sampled-from buffer is emptied for the next epoch. */
  function UpdateClearing(rb: ReplayBuffer): (next: ReplayBuffer)
    ensures |next.buffer| == 0 && next.bufferSize == rb.bufferSize
    ensures next.replayBuffer == rb.replayBuffer
    ensures next.endFactor == EndFactorDecay * rb.endFactor
  {
    rb.(buffer := [], endFactor := rb.endFactor * EndFactorDecay)
  }

  /** The buffer after `n` as-written updates. */
  function UpdateAfter(rb: ReplayBuffer, n: nat): ReplayBuffer
    decreases n
  {
    if n == 0 then rb else Update(UpdateAfter(rb, n - 1))
  }

  /**
   Any number of as-written updates leave the buffer's contents and capacity
   as they were and scale the early-stop probability by 0.9^n.
   */
  lemma {:induction false} UpdatesKeepBuffer(rb: ReplayBuffer, n: nat)
    ensures UpdateAfter(rb, n).buffer == rb.buffer
    ensures UpdateAfter(rb, n).bufferSize == rb.bufferSize
    ensures UpdateAfter(rb, n).endFactor == rb.endFactor * Agents.Pow(EndFactorDecay, n)
    decreases n
  {
    if n > 0 {
      UpdatesKeepBuffer(rb, n - 1);
      assert Agents.Pow(EndFactorDecay, n) == EndFactorDecay * Agents.Pow(EndFactorDecay, n - 1);
    }
  }

  /**
   As written, a buffer that is full stays full through any number of
   updates, so every later fill is a no-op and training keeps sampling the
   transitions of the first fill.
   */
  lemma {:induction false} FullBufferStaysFull(rb: ReplayBuffer, n: nat)
    requires |rb.buffer| >= rb.bufferSize
    ensures UpdateAfter(rb, n).buffer == rb.buffer
    ensures |UpdateAfter(rb, n).buffer| >= UpdateAfter(rb, n).bufferSize
  {
    UpdatesKeepBuffer(rb, n);
  }

  /**
   Starting from the initial end factor 0, the end factor is 0 after any number
   of updates, so the random early stop of a fill never fires (the stop draws
   are uniform in [0, 1)).
   */
  lemma {:induction false} RandomStopNeverFires(rb: ReplayBuffer, n: nat, rng: Rng, k: nat)
    requires rb.endFactor == 0.0
    requires 0.0 <= rng.stop(k)
    ensures UpdateAfter(rb, n).endFactor == 0.0
    ensures !(rng.stop(k) < UpdateAfter(rb, n).endFactor)
  {
    UpdatesKeepBuffer(rb, n);
  }
}
