/** The role of the running process (`MasterNetworkAdapter.mode`, and the matching
    `NetworkManager.Singleton.IsServer` / `IsClient` / `IsHost`). A host is both. */
module NetworkModes {

  datatype NetworkMode = Server | Host | Client
  {
    predicate IsServer() { this != Client }
    predicate IsClient() { this != Server }
    predicate IsHost() { this == Host }
  }
}
