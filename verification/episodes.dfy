/**
 Greedy evaluation: running one episode until the environment reports
 termination or truncation, and averaging the return over 100 episodes.
 The environment is represented by the step results it produced for the
 agent's greedy actions, in order (a trace); one trace per episode.
 */
module Episodes {
  import opened Types

  const EvaluationEpisodes: nat := 100

  /** Some step of the trace ends the episode. */
  predicate HasDone(trace: seq<StepResult>) {
    exists k :: 0 <= k < |trace| && trace[k].Done()
  }

  /** Index of the first step that ends the episode. */
  function FirstDone(trace: seq<StepResult>): (k: nat)
    requires HasDone(trace)
    ensures k < |trace| && trace[k].Done()
    ensures forall j :: 0 <= j < k ==> !trace[j].Done()
    decreases |trace|
  {
    if trace[0].Done() then 0
    else
      assert HasDone(trace[1..]) by {
        var k :| 0 <= k < |trace| && trace[k].Done();
        assert trace[1..][k - 1] == trace[k];
      }
      1 + FirstDone(trace[1..])
  }

  /** Sum of the rewards of a sequence of steps. */
  function SumRewards(steps: seq<StepResult>): real
    decreases |steps|
  {
    if |steps| == 0 then 0.0 else SumRewards(steps[..|steps| - 1]) + steps[|steps| - 1].reward
  }

  /** The return of one episode: every reward up to and including the first ending step. */
  function EpisodeReturn(trace: seq<StepResult>): real
    requires HasDone(trace)
  {
    SumRewards(trace[..FirstDone(trace) + 1])
  }

  /**
   Plays one greedy episode: steps until terminated or truncated, adding up the
   rewards. `steps` is the number of environment steps taken.
   */
  method RunEpisode(trace: seq<StepResult>) returns (totalReward: real, steps: nat)
    requires HasDone(trace)
    ensures 0 < steps <= |trace|
    ensures trace[steps - 1].Done()
    ensures forall j :: 0 <= j < steps - 1 ==> !trace[j].Done()
    ensures steps == FirstDone(trace) + 1
    ensures totalReward == EpisodeReturn(trace)
  {
    ghost var last := FirstDone(trace);
    var done := false;
    totalReward := 0.0;
    steps := 0;
    while !done
      invariant steps <= last + 1
      invariant done <==> steps == last + 1
      invariant totalReward == SumRewards(trace[..steps])
      decreases last + 1 - steps
    {
      var result := trace[steps];
      assert trace[..steps + 1][..steps] == trace[..steps];
      totalReward := totalReward + result.reward;
      steps := steps + 1;
      done := result.terminated || result.truncated;
    }
  }

  /** Sum of the returns of a sequence of episodes. */
  function TotalReturn(episodes: seq<seq<StepResult>>): real
    requires forall i :: 0 <= i < |episodes| ==> HasDone(episodes[i])
    decreases |episodes|
  {
    if |episodes| == 0 then 0.0
    else TotalReturn(episodes[..|episodes| - 1]) + EpisodeReturn(episodes[|episodes| - 1])
  }

  /** Runs 100 greedy episodes and returns the mean return. */
  method Evaluate(episodes: seq<seq<StepResult>>) returns (meanReward: real)
    requires |episodes| == EvaluationEpisodes
    requires forall i :: 0 <= i < |episodes| ==> HasDone(episodes[i])
    ensures meanReward * (EvaluationEpisodes as real) == TotalReturn(episodes)
  {
    var totalReward := 0.0;
    for e := 0 to EvaluationEpisodes
      invariant totalReward == TotalReturn(episodes[..e])
    {
      var episodeReward, _ := RunEpisode(episodes[e]);
      assert episodes[..e + 1][..e] == episodes[..e];
      totalReward := totalReward + episodeReward;
    }
    assert episodes[..EvaluationEpisodes] == episodes;
    meanReward := totalReward / (EvaluationEpisodes as real);
  }

  /** When every step pays reward 1 (as in CartPole), an episode's return is its length. */
  lemma {:induction false} UnitRewardReturnIsLength(trace: seq<StepResult>)
    requires HasDone(trace)
    requires forall j :: 0 <= j < |trace| ==> trace[j].reward == 1.0
    ensures EpisodeReturn(trace) == (FirstDone(trace) + 1) as real
  {
    UnitRewardSum(trace[..FirstDone(trace) + 1]);
  }

  lemma {:induction false} UnitRewardSum(steps: seq<StepResult>)
    requires forall j :: 0 <= j < |steps| ==> steps[j].reward == 1.0
    ensures SumRewards(steps) == |steps| as real
    decreases |steps|
  {
    if |steps| > 0 {
      UnitRewardSum(steps[..|steps| - 1]);
    }
  }

  /** If every episode returns the same value, the evaluation metric is that value. */
  lemma {:induction false} ConstantReturnsTotal(episodes: seq<seq<StepResult>>, c: real)
    requires forall i :: 0 <= i < |episodes| ==> HasDone(episodes[i])
    requires forall i :: 0 <= i < |episodes| ==> EpisodeReturn(episodes[i]) == c
    ensures TotalReturn(episodes) == (|episodes| as real) * c
    decreases |episodes|
  {
    if |episodes| > 0 {
      ConstantReturnsTotal(episodes[..|episodes| - 1], c);
    }
  }
}
