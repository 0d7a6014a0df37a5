/** Failure-carrying results shared by the whole model.

An operation of the modelled program either returns normally or raises a
Python exception.  Raising does not roll anything back: whatever the steps
before the failure did to the repository stays done.  `Outcome` therefore
carries the state in both cases, and `Finally` gives Python's `finally`
semantics: the cleanup always runs, and an exception it raises replaces the
one already in flight. */
module Outcomes {

  datatype Option<+T> = None | Some(value: T)

  /** The external calls that can fail.  A set of these, passed as `faults`,
      injects failures that the model cannot predict (I/O errors, rejected
      names, a remote that refuses the push, ...). */
  datatype Op =
    | SetValue(scope: string, section: string, option: string)
    | RemoveOption(scope: string, section: string, option: string)
    | AddValue(scope: string, section: string, option: string)
    | RemoveSection(scope: string, section: string)
    | CreateTag(name: string)
    | DeleteTag(name: string)
    | CreateHead(name: string)
    | DeleteHead(name: string)
    | SetHead
    | ResolveHead
    | StashPush
    | StashPop
    | Amend
    | CreateKeyFile(path: string)
    | WriteKey
    | CreateRemote(name: string)
    | DeleteRemote(name: string)
    | Push(refspec: string)

  datatype Error =
    | Failed(op: Op)                          // an external call raised
    | UnexpectedSigningFormat(format: string) // AssertionError in git_signing
    | UnexpectedRefType(refType: string)      // AssertionError / GHCLAssertionError
    | KeyNotBytes                             // writing a missing key to the key file
    | UnknownRevision                         // repo.commit(rev_id) found nothing
    | NoGlobalScope                           // KeyError on required_config["global"]
    | BodyRaised(code: int)                   // whatever the body of a scope raises

  datatype Outcome<S> = Ok(state: S) | Raised(state: S, error: Error) {

    /** Runs `f` on the state when no exception is in flight. */
    function Then(f: S -> Outcome<S>): Outcome<S> {
      match this
      case Ok(s) => f(s)
      case Raised(_, _) => this
    }

    /** Python `try: ... finally: cleanup`. */
    function Finally(cleanup: S -> Outcome<S>): (r: Outcome<S>)
      ensures r.state == cleanup(state).state
      ensures cleanup(state).Raised? ==> r == cleanup(state)
      ensures cleanup(state).Ok? ==> r == WithState(cleanup(state).state)
    {
      var c := cleanup(state);
      if c.Raised? then c
      else if Raised? then Raised(c.state, error)
      else c
    }

    /** The same way of ending (normal return or the same exception) in another state. */
    function WithState(t: S): (r: Outcome<S>)
      ensures r.state == t && r.Ok? == Ok?
      ensures Raised? ==> r.error == error
    {
      match this
      case Ok(_) => Ok(t)
      case Raised(_, e) => Raised(t, e)
    }
  }
}
