/** The host programs that hooks are installed into. */
module Hosts {
  datatype Host = Codex | Claude
}
