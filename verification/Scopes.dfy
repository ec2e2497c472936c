/** The network, chain and protocol that every table row belongs to. */
module Scopes {
  datatype Scope = Scope(network: string, chainId: int, protocol: string)
}
