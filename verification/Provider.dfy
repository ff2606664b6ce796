/** providers: what the lifecycle code can learn from a provider. Every answer is arbitrary. */
module Provider {
  import opened Wrappers

  datatype State =
    | StateUnknown | StateNotFound | StateProvisioning | StateStarting | StateRunning
    | StateStopping | StateStopped | StateFailed | StateUnavailable

  predicate Connectable(s: State) {
    s == StateRunning
  }

  predicate Startable(s: State) {
    s == StateStopped || s == StateUnknown || s == StateFailed
  }

  datatype Environment = Environment(id: string, state: State)

  /** An error by what errors.Is and IsTemporary say of it; the three are independent. */
  datatype Error = Error(notFound: bool, auth: bool, temporary: bool)

  type Reply = Result<Environment, Error>

  datatype Call =
    | Get(id: string, reply: Reply)
    | List(environments: Result<seq<Environment>, Error>)
    | Create(name: string, reply: Reply)
    | Start(id: string, error: Option<Error>)
}
