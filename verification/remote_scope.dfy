/** `git_remote(repo, remote_url)` (lib/common.py:175-181): a remote with a
fresh random name (`remoteName`, standing for `uuid4().hex`) for the body;
removed afterwards if it is still there.  There is no `try`: a body that
raises leaves the remote behind. */
module RemoteScope {
  import opened Outcomes
  import opened GitRepo

  function WithRemote(s: State, remoteName: string, url: string, body: State -> Outcome<State>, faults: set<Op>): (r: Outcome<State>)
    ensures Op.CreateRemote(remoteName) in faults || remoteName in s.remotes ==>
              r == Raised(s, Failed(Op.CreateRemote(remoteName)))
    ensures Op.CreateRemote(remoteName) !in faults && remoteName !in s.remotes ==>
              var o := body(s.(remotes := s.remotes[remoteName := url]));
              && (o.Raised? ==> r == o)
              && (o.Ok? && Op.DeleteRemote(remoteName) !in faults ==>
                    r == Ok(o.state.(remotes := o.state.remotes - {remoteName})))
  {
    var c := GitRepo.CreateRemote(s, remoteName, url, faults);
    if c.Raised? then c
    else
      var o := body(c.state);
      if o.Raised? then o
      else if remoteName in o.state.remotes then GitRepo.DeleteRemote(o.state, remoteName, faults)
      else
        assert o.state.remotes - {remoteName} == o.state.remotes;
        o
  }

  /** A body that returns normally and leaves the remotes as it found them:
      afterwards the remotes are exactly as before the scope. */
  lemma RemoteScopeCleans(s: State, remoteName: string, url: string, body: State -> Outcome<State>, faults: set<Op>)
    requires remoteName !in s.remotes
    requires Op.CreateRemote(remoteName) !in faults && Op.DeleteRemote(remoteName) !in faults
    requires var o := body(s.(remotes := s.remotes[remoteName := url])); o.Ok? && o.state.remotes == s.remotes[remoteName := url]
    ensures var o := body(s.(remotes := s.remotes[remoteName := url]));
            WithRemote(s, remoteName, url, body, faults) == Ok(o.state.(remotes := s.remotes))
  {
    assert s.remotes[remoteName := url] - {remoteName} == s.remotes;
  }

  /** The cleanup is idempotent: when the body already removed the remote,
      the scope removes nothing more and does not fail, even if removing
      the remote would. */
  lemma RemoteCleanupIdempotent(s: State, remoteName: string, url: string, body: State -> Outcome<State>, faults: set<Op>)
    requires remoteName !in s.remotes && Op.CreateRemote(remoteName) !in faults
    requires var o := body(s.(remotes := s.remotes[remoteName := url])); o.Ok? && remoteName !in o.state.remotes
    ensures WithRemote(s, remoteName, url, body, faults) == body(s.(remotes := s.remotes[remoteName := url]))
  {
  }
}
