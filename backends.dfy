/** backend/main.py and backend/agent_runner.py carry near-identical copies
    of the same functions. Where the copies behave differently, the model's
    functions take the copy as a parameter. */
module Backends {
  datatype Backend = MainApp | AgentRunner
}
