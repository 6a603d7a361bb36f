/**
 Shared vocabulary of the CartPole training loop: observations, transitions,
 environment step results and the failure-carrying wrappers used for the
 program's error paths.
 */
module Types {

  /** An observation of the cart-pole system (a 4-vector in the environment). */
  type State = seq<real>

  /** The action space is {0, 1}: push the cart left or right. */
  const NumActions: nat := 2

  /** One stored experience: (state, action, reward, next state, done). */
  datatype Transition = Transition(
    state: State,
    action: nat,
    reward: real,
    nextState: State,
    done: bool)

  /** What one call of the environment's step function returns. */
  datatype StepResult = StepResult(
    nextState: State,
    reward: real,
    terminated: bool,
    truncated: bool)
  {
    /** An episode ends on natural termination or on the time-limit truncation. */
    predicate Done() {
      terminated || truncated
    }
  }

  datatype Option<+T> = None | Some(value: T)

  datatype Result<+T, +E> = Ok(value: T) | Err(error: E)
}
