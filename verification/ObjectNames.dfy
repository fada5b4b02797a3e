// How the service spells the names of stored objects.

module ObjectNames {
  // Where the content with a hash lies in the object store.
  function BuildObjectName(userName: string, hash: string): string {
    "files/" + userName + "/" + hash
  }
}
