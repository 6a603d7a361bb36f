/**
 The agent: an online Q-network and a lagged target network (both reduced to
 immutable weight values evaluated by an opaque forward function), the
 epsilon-greedy policy, the temporal-difference target construction used for
 fitting, the hard target sync and the exploration schedule.
 */
module Agents {
  import opened Types

  /** The weights of one network: an ordered sequence of numeric arrays. */
  type Weights = seq<seq<real>>

  /** Forward pass of the fixed architecture: weights and a state give per-action values. */
  type Network = (Weights, State) -> seq<real>

  /** One epoch of gradient fitting: weights, inputs and targets give new weights. */
  type Fit = (Weights, seq<State>, seq<seq<real>>) -> Weights

  const InitialEpsilon: real := 1.0
  const EpsilonDecay: real := 0.9
  const EpsilonFloor: real := 0.05
  const Discount: real := 0.9

  datatype Agent = Agent(qWeights: Weights, tWeights: Weights, epsilon: real, gamma: real)

  /** The output layer has one linear unit per action. */
  ghost predicate ValidNetwork(net: Network) {
    forall w, s :: |net(w, s)| == NumActions
  }

  // ---------------------------------------------------------------------------
  // Construction and target sync
  // ---------------------------------------------------------------------------

  /** Copies every weight of the online network into the target network. */
  function SyncTarget(agent: Agent): (synced: Agent)
    ensures synced.tWeights == agent.qWeights
    ensures synced.qWeights == agent.qWeights
    ensures synced.epsilon == agent.epsilon && synced.gamma == agent.gamma
  {
    agent.(tWeights := agent.qWeights)
  }

  /**
   A fresh agent: both networks are built independently, then the target is
   synced from the online network; exploration starts at 1 and the discount is 0.9.
   */
  function NewAgent(qInit: Weights, tInit: Weights): (agent: Agent)
    ensures agent.qWeights == qInit
    ensures agent.tWeights == agent.qWeights
    ensures agent.epsilon == InitialEpsilon && agent.gamma == Discount
  {
    SyncTarget(Agent(qInit, tInit, InitialEpsilon, Discount))
  }

  // ---------------------------------------------------------------------------
  // Policy
  // ---------------------------------------------------------------------------

  /** `a` is the first index at which `q` attains its maximum. */
  predicate IsFirstMax(q: seq<real>, a: nat) {
    && a < |q|
    && (forall j :: 0 <= j < |q| ==> q[j] <= q[a])
    && (forall j :: 0 <= j < a ==> q[j] < q[a])
  }

  /** Index of the largest value, the earliest one on ties. */
  function ArgMax(q: seq<real>): (a: nat)
    requires |q| > 0
    ensures IsFirstMax(q, a)
    decreases |q|
  {
    if |q| == 1 then 0
    else
      var best := ArgMax(q[..|q| - 1]);
      if q[|q| - 1] > q[best] then |q| - 1 else best
  }

  /** There is only one first maximum, so greedy choice is a function of `q`. */
  lemma FirstMaxUnique(q: seq<real>, a: nat, b: nat)
    requires IsFirstMax(q, a) && IsFirstMax(q, b)
    ensures a == b
  {
    assert q[a] == q[b];
  }

  /**
   Epsilon-greedy action selection. `draw` is the uniform draw in [0, 1) the
   program always takes; `coin` is the uniform integer draw in {0, 1} it takes
   only when exploring.
   */
  function Policy(q: seq<real>, epsilon: real, train: bool, draw: real, coin: bool): (a: nat)
    requires |q| == NumActions
    ensures a < NumActions
    ensures !(train && draw < epsilon) ==> IsFirstMax(q, a)
    ensures train && draw < epsilon ==> a == (if coin then 1 else 0)
  {
    if draw < epsilon && train then
      (if coin then 1 else 0)
    else
      ArgMax(q)
  }

  /**
   Outside training the policy is greedy: it returns `a` exactly when `a` is the
   first maximum of the estimates, whatever the random draws are.
   */
  lemma GreedyPolicyIsFirstMax(q: seq<real>, epsilon: real, draw: real, coin: bool, a: nat)
    requires |q| == NumActions
    ensures Policy(q, epsilon, false, draw, coin) == a <==> IsFirstMax(q, a)
  {
    var chosen := Policy(q, epsilon, false, draw, coin);
    if IsFirstMax(q, a) {
      FirstMaxUnique(q, chosen, a);
    }
  }

  // ---------------------------------------------------------------------------
  // Temporal-difference targets and fitting
  // ---------------------------------------------------------------------------

  /** The target the program writes for the taken action of one transition. */
  function TdTarget(t: Transition, predicted: real, gamma: real): real {
    if t.done then t.reward else t.reward + gamma * predicted
  }

  /**
   The target matrix as a whole: the target network's predictions, with the
   column of the action taken replaced by its temporal-difference target.
   */
  function TdTargets(tPred: seq<seq<real>>, batch: seq<Transition>, gamma: real): seq<seq<real>>
    requires |tPred| == |batch|
  {
    seq(|batch|, i requires 0 <= i < |batch| =>
      seq(|tPred[i]|, j requires 0 <= j < |tPred[i]| =>
        if j == batch[i].action then TdTarget(batch[i], tPred[i][j], gamma) else tPred[i][j]))
  }

  /**
   Starts from the target network's predictions for the next states and
   rewrites, row by row, only the column of the action taken.
   */
  method BuildTargets(tPred: seq<seq<real>>, batch: seq<Transition>, gamma: real)
    returns (truth: seq<seq<real>>)
    requires |tPred| == |batch|
    requires forall i :: 0 <= i < |batch| ==> batch[i].action < |tPred[i]|
    ensures |truth| == |batch|
    ensures forall i :: 0 <= i < |batch| ==> |truth[i]| == |tPred[i]|
    ensures forall i :: 0 <= i < |batch| ==>
              truth[i][batch[i].action] ==
                if batch[i].done then batch[i].reward
                else batch[i].reward + gamma * tPred[i][batch[i].action]
    ensures forall i, j :: 0 <= i < |batch| && 0 <= j < |tPred[i]| && j != batch[i].action ==>
              truth[i][j] == tPred[i][j]
    ensures truth == TdTargets(tPred, batch, gamma)
  {
    truth := tPred;
    for i := 0 to |batch|
      invariant |truth| == |batch|
      invariant forall r :: 0 <= r < |batch| ==> |truth[r]| == |tPred[r]|
      invariant forall r :: 0 <= r < i ==>
                  truth[r][batch[r].action] == TdTarget(batch[r], tPred[r][batch[r].action], gamma)
      invariant forall r, j :: 0 <= r < |batch| && 0 <= j < |tPred[r]| && (r >= i || j != batch[r].action) ==>
                  truth[r][j] == tPred[r][j]
    {
      var a := batch[i].action;
      truth := truth[i := truth[i][a := TdTarget(batch[i], truth[i][a], gamma)]];
    }
    forall i | 0 <= i < |batch|
      ensures truth[i] == TdTargets(tPred, batch, gamma)[i]
    {
      assert forall j :: 0 <= j < |tPred[i]| ==> truth[i][j] == TdTargets(tPred, batch, gamma)[i][j];
    }
  }

  function States(batch: seq<Transition>): (xs: seq<State>)
    ensures |xs| == |batch|
    ensures forall i :: 0 <= i < |batch| ==> xs[i] == batch[i].state
  {
    seq(|batch|, i requires 0 <= i < |batch| => batch[i].state)
  }

  /** The target network's predictions for every next state of the batch. */
  function TargetPredictions(agent: Agent, net: Network, batch: seq<Transition>): (pred: seq<seq<real>>)
    ensures |pred| == |batch|
    ensures forall i :: 0 <= i < |batch| ==> pred[i] == net(agent.tWeights, batch[i].nextState)
  {
    seq(|batch|, i requires 0 <= i < |batch| => net(agent.tWeights, batch[i].nextState))
  }

  /**
   One training step on a batch: build the targets from the target network and
   fit the online network once on (states, targets). The target network, the
   exploration rate and the discount are untouched.
   */
  method Train(agent: Agent, batch: seq<Transition>, net: Network, fit: Fit)
    returns (trained: Agent, truth: seq<seq<real>>)
    requires ValidNetwork(net)
    requires forall i :: 0 <= i < |batch| ==> batch[i].action < NumActions
    ensures trained.tWeights == agent.tWeights
    ensures trained.epsilon == agent.epsilon && trained.gamma == agent.gamma
    ensures trained.qWeights == fit(agent.qWeights, States(batch), truth)
    ensures truth == TdTargets(TargetPredictions(agent, net, batch), batch, agent.gamma)
    ensures trained == TrainOn(agent, batch, net, fit)
    ensures |truth| == |batch|
    ensures forall i :: 0 <= i < |batch| ==> |truth[i]| == NumActions
    ensures forall i, j :: 0 <= i < |batch| && 0 <= j < NumActions ==>
              truth[i][j] ==
                if j == batch[i].action
                then TdTarget(batch[i], net(agent.tWeights, batch[i].nextState)[j], agent.gamma)
                else net(agent.tWeights, batch[i].nextState)[j]
  {
    var pred := TargetPredictions(agent, net, batch);
    truth := BuildTargets(pred, batch, agent.gamma);
    trained := agent.(qWeights := fit(agent.qWeights, States(batch), truth));
  }

  /** The agent after one fit on `batch`, with targets from its own target network. */
  function TrainOn(agent: Agent, batch: seq<Transition>, net: Network, fit: Fit): Agent {
    var truth := TdTargets(TargetPredictions(agent, net, batch), batch, agent.gamma);
    agent.(qWeights := fit(agent.qWeights, States(batch), truth))
  }

  /**
   The agent after one fit on each batch in turn. Fitting changes only the
   online weights, so every batch's targets come from the same target weights.
   */
  function TrainAll(agent: Agent, batches: seq<seq<Transition>>, net: Network, fit: Fit): (trained: Agent)
    ensures trained.tWeights == agent.tWeights
    ensures trained.epsilon == agent.epsilon && trained.gamma == agent.gamma
    decreases |batches|
  {
    if |batches| == 0 then agent
    else TrainOn(TrainAll(agent, batches[..|batches| - 1], net, fit), batches[|batches| - 1], net, fit)
  }

  /**
   Fitting on `xs` and then on `ys` is fitting on `xs + ys`: training over the
   batches of an epoch is a left fold.
   */
  lemma {:induction false} TrainAllAppend(agent: Agent, xs: seq<seq<Transition>>, ys: seq<seq<Transition>>,
                                          net: Network, fit: Fit)
    ensures TrainAll(agent, xs + ys, net, fit) == TrainAll(TrainAll(agent, xs, net, fit), ys, net, fit)
    decreases |ys|
  {
    if |ys| == 0 {
      assert xs + ys == xs;
    } else {
      var init := ys[..|ys| - 1];
      TrainAllAppend(agent, xs, init, net, fit);
      assert (xs + ys)[..|xs + ys| - 1] == xs + init;
      assert (xs + ys)[|xs + ys| - 1] == ys[|ys| - 1];
    }
  }

  /**
   The k-th fit of a sequence of batches starts from the weights the first k
   fits produced and takes its targets from the original target weights and
   discount: the target network is frozen while an epoch trains.
   */
  lemma {:induction false} TrainAllFrozenTarget(agent: Agent, batches: seq<seq<Transition>>, net: Network, fit: Fit,
                                                k: nat)
    requires k < |batches|
    ensures TrainAll(agent, batches[..k + 1], net, fit).qWeights ==
              fit(TrainAll(agent, batches[..k], net, fit).qWeights, States(batches[k]),
                  TdTargets(TargetPredictions(agent, net, batches[k]), batches[k], agent.gamma))
  {
    var prefix := batches[..k + 1];
    assert prefix[..|prefix| - 1] == batches[..k];
    assert prefix[|prefix| - 1] == batches[k];
    var before := TrainAll(agent, batches[..k], net, fit);
    assert TargetPredictions(before, net, batches[k]) == TargetPredictions(agent, net, batches[k]);
  }

  // ---------------------------------------------------------------------------
  // Exploration schedule
  // ---------------------------------------------------------------------------

  function Max(x: real, y: real): real {
    if x >= y then x else y
  }

  /** Decays epsilon by 0.9 down to the floor 0.05, only while it is above the floor. */
  function UpdateEpsilon(epsilon: real): (next: real)
    ensures next <= epsilon
    ensures epsilon <= EpsilonFloor ==> next == epsilon
    ensures epsilon > EpsilonFloor ==> EpsilonFloor <= next < epsilon
    ensures epsilon > EpsilonFloor ==> (next == EpsilonFloor <==> EpsilonDecay * epsilon <= EpsilonFloor)
    ensures epsilon > EpsilonFloor && EpsilonDecay * epsilon > EpsilonFloor ==> next == EpsilonDecay * epsilon
  {
    if epsilon > EpsilonFloor then Max(epsilon * EpsilonDecay, EpsilonFloor) else epsilon
  }

  /** Epsilon after `n` calls of the update. */
  function EpsilonAfter(epsilon: real, n: nat): real
    decreases n
  {
    if n == 0 then epsilon else UpdateEpsilon(EpsilonAfter(epsilon, n - 1))
  }

  function Pow(x: real, n: nat): real
    decreases n
  {
    if n == 0 then 1.0 else x * Pow(x, n - 1)
  }

  lemma {:induction false} PowDecayBounds(n: nat)
    ensures 0.0 <= Pow(EpsilonDecay, n) <= 1.0
  {
    if n > 0 {
      PowDecayBounds(n - 1);
    }
  }

  /**
   Closed form of the schedule: from any start at or above the floor, after `n`
   updates epsilon is max(epsilon * 0.9^n, 0.05).
   */
  lemma {:induction false} EpsilonClosedForm(epsilon: real, n: nat)
    requires epsilon >= EpsilonFloor
    ensures EpsilonAfter(epsilon, n) == Max(epsilon * Pow(EpsilonDecay, n), EpsilonFloor)
  {
    if n == 0 {
      assert epsilon * Pow(EpsilonDecay, 0) == epsilon;
    } else {
      var m: nat := n - 1;
      EpsilonClosedForm(epsilon, m);
      PowDecayBounds(m);
      var p := Pow(EpsilonDecay, m);
      var x := epsilon * p;
      assert Pow(EpsilonDecay, n) == EpsilonDecay * p;
      assert epsilon * Pow(EpsilonDecay, n) == EpsilonDecay * x;
      assert x == epsilon * Pow(EpsilonDecay, m);
      assert EpsilonAfter(epsilon, m) == Max(epsilon * Pow(EpsilonDecay, m), EpsilonFloor);
      assert EpsilonAfter(epsilon, m) == Max(x, EpsilonFloor);
      if x > EpsilonFloor {
        assert Max(x, EpsilonFloor) == x;
        assert EpsilonAfter(epsilon, m) == x;
      } else {
        assert EpsilonAfter(epsilon, m) == EpsilonFloor;
        assert EpsilonDecay * x <= EpsilonFloor;
      }
    }
  }

  /**
   The schedule never increases, and from a start at or above the floor it
   never drops below the floor; at or below the floor it is frozen.
   */
  lemma {:induction false} EpsilonScheduleBounds(epsilon: real, m: nat, n: nat)
    requires m <= n
    ensures EpsilonAfter(epsilon, n) <= EpsilonAfter(epsilon, m)
    ensures epsilon >= EpsilonFloor ==> EpsilonAfter(epsilon, n) >= EpsilonFloor
    ensures epsilon <= EpsilonFloor ==> EpsilonAfter(epsilon, n) == epsilon
    decreases n
  {
    if n > 0 {
      if m < n {
        EpsilonScheduleBounds(epsilon, m, n - 1);
      } else {
        EpsilonScheduleBounds(epsilon, m - 1, n - 1);
      }
    }
  }

  /** Taking one update first and `n` afterwards is the same as `n + 1` updates. */
  lemma {:induction false} EpsilonAfterShift(epsilon: real, n: nat)
    ensures EpsilonAfter(UpdateEpsilon(epsilon), n) == EpsilonAfter(epsilon, n + 1)
  {
    if n > 0 {
      EpsilonAfterShift(epsilon, n - 1);
    }
  }

  /**
   The schedule reaches the floor exactly: every update above the floor removes
   more than 1/200, so `k` updates suffice from any start at most 0.05 + k/200.
   */
  lemma {:induction false} EpsilonReachesFloor(epsilon: real, k: nat)
    requires EpsilonFloor < epsilon <= EpsilonFloor + (k as real) / 200.0
    ensures EpsilonAfter(epsilon, k) == EpsilonFloor
    decreases k
  {
    assert k >= 1;
    var next := UpdateEpsilon(epsilon);
    EpsilonAfterShift(epsilon, k - 1);
    if next == EpsilonFloor {
      EpsilonScheduleBounds(next, 0, k - 1);
    } else {
      assert next == EpsilonDecay * epsilon;
      EpsilonReachesFloor(next, k - 1);
    }
  }

  lemma {:induction false} PowAdd(x: real, m: nat, n: nat)
    ensures Pow(x, m + n) == Pow(x, m) * Pow(x, n)
    decreases m
  {
    if m > 0 {
      PowAdd(x, m - 1, n);
      assert Pow(x, m + n) == x * Pow(x, m - 1 + n);
    }
  }

  /** 0.9^28 is still above 0.05 and 0.9^29 is at or below it. */
  lemma DecayPowersAroundFloor()
    ensures Pow(EpsilonDecay, 28) > EpsilonFloor
    ensures EpsilonDecay * Pow(EpsilonDecay, 28) <= EpsilonFloor
  {
    assert Pow(EpsilonDecay, 1) == 0.9;
    PowAdd(EpsilonDecay, 1, 1);
    PowAdd(EpsilonDecay, 2, 2);
    PowAdd(EpsilonDecay, 4, 4);
    PowAdd(EpsilonDecay, 8, 8);
    PowAdd(EpsilonDecay, 16, 8);
    PowAdd(EpsilonDecay, 24, 4);
    var p8 := Pow(EpsilonDecay, 8);
    assert p8 == 0.43046721;
    assert Pow(EpsilonDecay, 16) == p8 * p8;
  }

  /**
   From the initial value 1 the first update gives 0.9; epsilon stays above
   the floor for the first 28 updates (so throughout a 20-epoch run) and sits
   exactly on 0.05 from the 29th update on.
   */
  lemma EpsilonFromInitial()
    ensures EpsilonAfter(InitialEpsilon, 1) == 0.9
    ensures forall n: nat :: n <= 28 ==> EpsilonAfter(InitialEpsilon, n) > EpsilonFloor
    ensures forall n: nat :: n >= 29 ==> EpsilonAfter(InitialEpsilon, n) == EpsilonFloor
  {
    EpsilonAboveFloorEarly();
    EpsilonAtFloorLate();
  }

  /** The first 28 updates from 1 all stay above the floor. */
  lemma EpsilonAboveFloorEarly()
    ensures forall n: nat :: n <= 28 ==> EpsilonAfter(InitialEpsilon, n) > EpsilonFloor
  {
    DecayPowersAroundFloor();
    EpsilonClosedForm(InitialEpsilon, 28);
    forall n: nat | n <= 28
      ensures EpsilonAfter(InitialEpsilon, n) > EpsilonFloor
    {
      EpsilonScheduleBounds(InitialEpsilon, n, 28);
    }
  }

  /** From the 29th update from 1 on, epsilon sits at the floor. */
  lemma EpsilonAtFloorLate()
    ensures forall n: nat :: n >= 29 ==> EpsilonAfter(InitialEpsilon, n) == EpsilonFloor
  {
    var m: nat := 29;
    DecayPowersAroundFloor();
    EpsilonClosedForm(InitialEpsilon, m);
    assert Pow(EpsilonDecay, m) == EpsilonDecay * Pow(EpsilonDecay, m - 1);
    forall n: nat | n >= m
      ensures EpsilonAfter(InitialEpsilon, n) == EpsilonFloor
    {
      EpsilonScheduleBounds(InitialEpsilon, m, n);
      EpsilonScheduleBounds(InitialEpsilon, 0, n);
    }
  }
}
