/** The fixed port plan shared by the peer-to-peer programs: member `id`
    receives on port `10000 + 2 * id`. */
module Ports {

  const BASE_PORT: nat := 10000

  function MemberPort(id: nat): nat {
    BASE_PORT + 2 * id
  }
}
