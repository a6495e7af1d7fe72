/** Calls to the API server, any of which may fail before or after it took effect. */
module Calls {
  datatype Call = Done | ErrorBefore | ErrorAfter {
    predicate Took() { this != ErrorBefore }
  }
}
