/** Runs of the actuator: what it becomes, what it asks of the backend, and what it sends. */
module ActuatorTrace {
  import opened ActuatorTypes
  import opened ActuatorSteps

  /** One call from the main loop, or a restart, with what the backend answers in it. */
  datatype Input = Input(env: Env, action: Action)

  function Run(c: Core, inputs: seq<Input>): Core
    decreases |inputs|
  {
    if inputs == [] then c
    else
      var last := inputs[|inputs| - 1];
      Step(Run(c, inputs[..|inputs| - 1]), last.env, last.action).core
  }

  /** Every backend call of a run, in order. */
  function Calls(c: Core, inputs: seq<Input>): seq<Call>
    decreases |inputs|
  {
    if inputs == [] then []
    else
      var init, last := inputs[..|inputs| - 1], inputs[|inputs| - 1];
      Calls(c, init) + Step(Run(c, init), last.env, last.action).calls
  }

  /** Every packet handed to the serial port in a run, in order. */
  function Sent(c: Core, inputs: seq<Input>): seq<Outgoing>
    decreases |inputs|
  {
    if inputs == [] then []
    else
      var init, last := inputs[..|inputs| - 1], inputs[|inputs| - 1];
      Sent(c, init) + Step(Run(c, init), last.env, last.action).sent
  }
}
