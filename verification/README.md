# CartPole DQN training loop — Dafny model

This project models the control logic of a small deep-Q-learning agent for the
CartPole balancing task (`main.py`). The neural networks, the physics
simulator and the file output are external; what remains is the bookkeeping
around them:

- the **agent**: epsilon-greedy action selection with first-index argmax, the
  temporal-difference target matrix built from the target network (with the
  program's same-column bootstrap), one fit per batch, the hard target sync,
  and the exploration schedule (×0.9, floor 0.05);
- **episode accounting**: a greedy episode sums rewards up to and including
  the first terminated-or-truncated step; evaluation averages 100 episodes;
- the **replay buffer**: storing one transition per environment step, filling
  to capacity with a nested episode loop, drawing `range(0, buffer_size,
  batch_size)` batches without replacement, and the per-epoch update;
- the **epoch loop**: fill, train on every batch, evaluate, log, decay, sync,
  and a demonstration render every second epoch.

Modules: `Types` (transitions, step results, wrappers), `Agents`, `Episodes`,
`Replay`, `Training`.

How the outside world enters the model:

- network forward passes are an opaque function `Network` of (weights,
  state), and a fit is an opaque function `Fit` of (weights, inputs,
  targets). Weights are immutable values, so the target sync is a copy of a
  value;
- during a fill, the environment is `Env`: `reset(k)` is the observation a
  reset returns before the k-th step of that fill, and `step(k, a)` is the
  response to action `a` at the k-th step;
- randomness is `Rng`: `explore(k)` and `coin(k)` are the policy's uniform
  draw and `randint(0, 2)` outcome at step k, and `stop(k)` is the early-stop
  draw. `pick(b, i)` is the i-th bounded draw used to build batch `b`;
- for greedy evaluation, each episode is given as the trace of step results
  the environment produced.

The per-epoch buffer update is evidently meant to empty the buffer, but the
code assigns the empty list to a different attribute (`replay_buffer`). The
model follows the code (`Replay.Update`) and also gives the clearing update
(`Replay.UpdateClearing`). `Training` takes a `clearOnUpdate` flag, where false
is the program as written; see Findings. For positive sizes, sampling yields
exactly ceil(buffer_size / batch_size) batches.

## Model

| member | source | states |
|---|---|---|
| `Agents.NewAgent` | main.py:20-27 | a fresh agent's target weights equal its online weights; epsilon starts at 1 and the discount is 0.9 |
| `Agents.SyncTarget` | main.py:123-125 | after the sync the target weights are identical to the online weights; online weights, epsilon and discount are unchanged |
| `Agents.ArgMax` | main.py:65 | the result is the first index at which the Q-estimates attain their maximum |
| `Agents.FirstMaxUnique` | main.py:65 | the first maximum is unique, so the greedy choice depends only on the estimates |
| `Agents.Policy` | main.py:48-66 | the action is 0 or 1; it is the first-max action unless training and the draw is below epsilon, in which case it is the random integer draw |
| `Agents.GreedyPolicyIsFirstMax` | main.py:62-66 | with training off, the policy returns `a` if and only if `a` is the first maximum, whatever the random draws (deterministic greedy choice) |
| `Agents.BuildTargets` | main.py:81-87 | in each row only the taken action's column is rewritten: reward if done, else reward + gamma × the target prediction at that same column; every other column keeps the target network's prediction; the matrix as a whole equals the column-wise definition `TdTargets` |
| `Agents.Train` | main.py:68-90 | the targets come from the target network on the next states; the online weights are one fit on (states, targets); target weights, epsilon and discount are untouched; the result is the one-batch step `TrainOn` |
| `Agents.TrainAll` | main.py:196-197 | fitting once on each batch in turn changes only the online weights: target weights, epsilon and discount are those the epoch started with |
| `Agents.TrainAllAppend` | main.py:196-197 | fitting on the batches `xs` and then on `ys` is fitting on `xs + ys`, so an epoch's training is a left fold over its batches |
| `Agents.TrainAllFrozenTarget` | main.py:196-197 | the k-th fit of an epoch starts from the weights the first k fits produced and takes its targets from the target weights and discount the epoch started with |
| `Agents.UpdateEpsilon` | main.py:127-130 | epsilon never increases; at or below 0.05 it is unchanged; above it the result is 0.9 × epsilon, or exactly 0.05 when 0.9 × epsilon ≤ 0.05 |
| `Agents.EpsilonClosedForm` | main.py:127-130 | from a start at or above 0.05, after n updates epsilon is max(epsilon × 0.9^n, 0.05) |
| `Agents.EpsilonScheduleBounds` | main.py:127-130 | over repeated updates epsilon is non-increasing, never drops below 0.05 once at or above it, and stays frozen once at or below it |
| `Agents.EpsilonReachesFloor` | main.py:127-130 | from epsilon in (0.05, 0.05 + k/200], k updates reach exactly 0.05 |
| `Agents.EpsilonFromInitial` | main.py:127-130 | from the initial 1 the first update gives 0.9; epsilon stays above 0.05 for the first 28 updates (so through a default 20-epoch run) and is exactly 0.05 from the 29th update on |
| `Agents.EpsilonAboveFloorEarly` | main.py:127-130 | each of the first 28 updates from the initial 1 leaves epsilon above 0.05 |
| `Agents.EpsilonAtFloorLate` | main.py:127-130 | from the 29th update from the initial 1 on, epsilon is exactly 0.05 |
| `Episodes.FirstDone` | main.py:98-102 | the index of the first step whose terminated or truncated flag is set |
| `Episodes.RunEpisode` | main.py:92-109 | the episode takes exactly the steps up to and including the first ending step, and the total is the sum of their rewards |
| `Episodes.Evaluate` | main.py:111-116 | the metric times 100 equals the sum of the returns of the 100 episodes |
| `Episodes.UnitRewardReturnIsLength` | main.py:98-109 | when every step pays 1, an episode's return is its number of steps |
| `Episodes.ConstantReturnsTotal` | main.py:111-116 | if every episode returns c, the total over n episodes is n × c, so the metric is c |
| `Replay.NewReplayBuffer` | main.py:134-139 | a new buffer is empty, has the given capacity and end factor 0, and the `replay_buffer` attribute does not exist yet |
| `Replay.ActionAt` | main.py:143 | the stored action is 0 or 1: the integer draw when the uniform draw is below the agent's epsilon (the policy is called in training mode), otherwise the first maximum of the online network's estimates for the state |
| `Replay.StoreExperience` | main.py:141-148 | exactly one transition (state, policy action, reward, next state, terminated or truncated) is appended, earlier entries are unchanged, and its next state and done flag are returned |
| `Replay.FillBuffer` | main.py:150-160 | starting below capacity the buffer ends at exactly capacity; at or above capacity it is a no-op with no episode started; the old contents are a prefix; every new entry records the policy's action and the environment's response from the right state (a reset at episode start, else the previous next state) |
| `Replay.ExploringFill` | main.py:141-160 | when the collecting agent's epsilon is 1 and every uniform draw lies below 1, every transition a fill adds carries the random integer draw of its step as its action, whatever the network estimates |
| `Replay.OneStepEpisodesCollect` | main.py:150-160 | against an environment that ends every episode after one step with reward 1, every collected transition is done, pays 1 and starts from a reset |
| `Replay.RangeCount` | main.py:164 | the count is the least n with n × step past stop, which is ceil(stop / step) for positive step and stop |
| `Replay.SamplePositions` | main.py:165 | k positions below n, pairwise distinct |
| `Replay.SampleBuffer` | main.py:162-165 | a zero batch size and a sample larger than the buffer (or negative) are the two errors, each exactly when it occurs; otherwise there are as many batches as range(0, buffer_size, batch_size) has elements, each of batch_size buffer entries at pairwise distinct positions |
| `Replay.Update` | main.py:167-169 | as written: the sampled-from buffer is unchanged, the separate `replay_buffer` attribute becomes empty, and the end factor is multiplied by 0.9 |
| `Replay.UpdateClearing` | main.py:167-169 | corrected: the sampled-from buffer is emptied and the end factor is multiplied by 0.9 |
| `Replay.UpdatesKeepBuffer` | main.py:167-169 | after n as-written updates the buffer and capacity are unchanged and the end factor is scaled by 0.9^n |
| `Replay.FullBufferStaysFull` | main.py:167-169 | a full buffer stays full through any number of as-written updates, so every later fill is a no-op |
| `Replay.RandomStopNeverFires` | main.py:159-169 | from the initial end factor 0 the end factor stays 0, so the random early-stop test in the fill is never true |
| `Training.FitBatches` | main.py:196-197 | the loop over the drawn batches leaves the agent that the fold `TrainAll` gives: one fit per batch, in drawing order |
| `Training.AfterEpochs` | main.py:194-206 | after n epochs epsilon is the n-fold update of its start value and the discount is unchanged; after at least one epoch the target weights equal the online weights |
| `Training.Epoch` | main.py:194-206 | the new agent is the old one fitted once on each drawn batch in order (`TrainAll`), with epsilon then decayed once and the target synced; there are as many batches as range(0, capacity, 128) has elements, each of 128 entries at pairwise distinct positions of the filled buffer, which extends the old one (as written it is the new buffer); one epoch syncs the target to the online weights, decays epsilon once and the end factor once, logs (epoch, mean return); it succeeds whenever the capacity is at least 128 or not positive, and fails with the sample-size error when a positive capacity below 128 has to be filled; as written the buffer only grows and stays full, with clearing it ends empty; every transition the epoch adds was collected by the agent as it stood when the epoch began (before its training, decay and sync), under this epoch's environment and draws |
| `Training.RunTraining` | main.py:185-208 | the log has one row per epoch with that epoch's mean return; epsilon after n epochs is the n-fold update from 1; the end factor stays 0; renders happen after odd-numbered epochs; the first epoch collects 1280 transitions and, as written, every later epoch collects none, while with clearing every epoch collects 1280; every epoch draws range(0, 1280, 128) batches from a full 1280-entry buffer, and as written it is the first epoch's buffer every time; the final agent is the fold `AfterEpochs` of each epoch's fits, decay and sync over the batches drawn; the transitions epoch e adds were collected by the agent the first e epochs produced, under epoch e's environment and draws |
| `Training.DefaultRunEndsExploring` | main.py:185-206 | a run of the default 20 epochs ends with epsilon still above its floor of 0.05 |
| `Training.TrainsOnFirstFill` | main.py:185-206 | as written, when every uniform draw of the first epoch lies below 1, every action in every batch of every epoch is the random integer draw of the first-epoch step that recorded it: training only ever sees the fresh agent's random play |

## Left out

- Network construction, forward passes and gradient fitting (`_build_net`, `q_net.fit`, the `t_net`/`q_net` calls): they are TensorFlow internals, replaced by the opaque `Network` and `Fit` functions.
- The simulator (`gym.make`, `env.reset`, `env.step`, `env.render`): it is replaced by the `Env` oracle and, for evaluation, by per-episode step-result traces; the greedy actions' effect on the simulator is inside those traces.
- `save_gif`, `imageio.mimsave` and `CustomCSVWriter`: file output only. The model records which epochs render a demonstration and the rows that would be logged.
- The `print` diagnostics (the truncation message and the progress line): console output with no effect on state.
- Random number generation: draws are injected through `Rng`. The standard library's `random.sample` switches to a rejection method (retrying on already-chosen positions) for large populations; the model uses its pool method for every size. Both give pairwise distinct positions.
- Floating point: rewards, epsilon and the end factor are exact reals, so rounding is not modelled.
- Episodes.RunEpisode: requires that the trace contains an ending step; the program would loop forever on an environment that never ends an episode.
- Training.RunTraining: requires an oracle per epoch whose evaluation episodes all end; the environment the program uses truncates every episode.

## Findings

| source | as written | input that shows it | evidently intended | confidence | as-written member | corrected member |
|---|---|---|---|---|---|---|
| main.py:168 | the per-epoch update assigns the empty list to `self.replay_buffer`, so `self.buffer` keeps its 1280 transitions | any run with two or more epochs: in the second epoch the buffer is already full, `fill_buffer` returns at once, and training samples only first-epoch data collected with epsilon 1 | `self.buffer = []`, so every epoch collects 1280 fresh transitions with the current policy | high; not executed | `Replay.Update` (with `Replay.FullBufferStaysFull` and `Training.TrainsOnFirstFill`) | `Replay.UpdateClearing` (with `Training.RunTraining` under `clearOnUpdate`, where epoch e's 1280 transitions are collected by the agent the first e epochs produced) |
