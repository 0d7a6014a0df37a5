/** `g-delete-ref` (lib/cmd/g-delete-ref.py:55-123): deletes a tag or branch
of a remote repository by pushing an empty source to it, from a fresh
temporary repository, under the credential override and through a
temporary remote. */
module DeleteRef {
  import opened Outcomes
  import opened GitConfig
  import opened GitRepo
  import opened Credentials
  import opened ConfigScope
  import opened RemoteScope
  import RefScope

  /** The command line.  `refType` is a string: the model does not rely on
      the argument parser having rejected other values. */
  datatype DeleteArgs = DeleteArgs(
    remoteUrl: string,
    username: string,
    password: Option<string>,
    refType: string,
    refName: string,
    force: bool)

  /** Lines 86-93: the namespace under `refs/` for a reference type. */
  function RefNamespace(refType: string): (ns: Option<string>)
    ensures refType == RefScope.BRANCH <==> ns == Some("heads")
    ensures refType == RefScope.TAG <==> ns == Some("tags")
    ensures ns.None? <==> refType != RefScope.BRANCH && refType != RefScope.TAG
  {
    if refType == RefScope.BRANCH then Some("heads")
    else if refType == RefScope.TAG then Some("tags")
    else None
  }

  /** Lines 102-104: the refspec that deletes `refs/<ns>/<name>` remotely. */
  function DeleteRefspec(ns: string, name: string): string {
    ":refs/" + ns + "/" + name
  }

  /** The refspec names what is deleted: it starts with the empty source
      and `:refs/`, and no two (namespace, name) pairs of the two namespaces
      give the same refspec. */
  lemma DeleteRefspecDetermines(ns1: string, name1: string, ns2: string, name2: string)
    requires ns1 in {"heads", "tags"} && ns2 in {"heads", "tags"}
    requires DeleteRefspec(ns1, name1) == DeleteRefspec(ns2, name2)
    ensures ns1 == ns2 && name1 == name2
  {
    var r := DeleteRefspec(ns1, name1);
    assert r[6] == ns1[0] && r[6] == ns2[0];
    assert ns1 == ns2;
    var k := 6 + |ns1| + 1;
    assert r[k..] == name1;
    assert DeleteRefspec(ns2, name2)[k..] == name2;
  }

  /** `str.upper` on one character, for the ASCII letters. */
  function UpperChar(c: char): (u: char)
    ensures 'a' <= c <= 'z' ==> 'A' <= u <= 'Z' && u as int == c as int - 32
    ensures !('a' <= c <= 'z') ==> u == c
  {
    if 'a' <= c <= 'z' then (c as int - 32) as char else c
  }

  /** `t[0].upper() + t[1:]`: a lower-case first letter becomes the same
      letter in upper case, anything else is kept. */
  function Capitalized(t: string): (r: string)
    requires |t| > 0
    ensures |r| == |t| && r[1..] == t[1..]
    ensures 'a' <= t[0] <= 'z' ==> 'A' <= r[0] <= 'Z' && r[0] as int + 32 == t[0] as int
    ensures !('a' <= t[0] <= 'z') ==> r[0] == t[0]
  {
    [UpperChar(t[0])] + t[1..]
  }

  /** Lines 105-111. */
  function SuccessMessage(refType: string, name: string): string
    requires |refType| > 0
  {
    Capitalized(refType) + " '" + name + "' is successfully deleted"
  }

  /** Lines 114-118. */
  function FailureMessage(refType: string, name: string): string {
    "Failed to delete " + refType + " '" + name + "'"
  }

  /** Only the first letter of the type is capitalised. */
  lemma SuccessMessages(name: string)
    ensures SuccessMessage(RefScope.BRANCH, name) == "Branch '" + name + "' is successfully deleted"
    ensures SuccessMessage(RefScope.TAG, name) == "Tag '" + name + "' is successfully deleted"
  {
    assert Capitalized(RefScope.BRANCH) == "Branch";
    assert Capitalized(RefScope.TAG) == "Tag";
  }

  /** Lines 99-123: the push with the password in its variable; with
      `--force` a failed push becomes a warning, otherwise it propagates;
      the variable is popped either way. */
  function DeleteWithPassword(y: State, args: DeleteArgs, refspec: string, variable: string, remoteName: string, faults: set<Op>): Outcome<State>
    requires |args.refType| > 0
  {
    var p := PushDelete(SetPassword(y, args.password, variable), remoteName, refspec, faults);
    var handled :=
      if p.Ok? then Ok(p.state.(log := p.state.log + [Info(SuccessMessage(args.refType, args.refName))]))
      else if args.force then Ok(p.state.(log := p.state.log + [Warn(FailureMessage(args.refType, args.refName))]))
      else p;
    handled.WithState(PopPassword(handled.state, args.password, variable))
  }

  function Deleter(args: DeleteArgs, refspec: string, variable: string, remoteName: string, faults: set<Op>): State -> Outcome<State>
    requires |args.refType| > 0
  {
    (y: State) => DeleteWithPassword(y, args, refspec, variable, remoteName, faults)
  }

  function InRemote(args: DeleteArgs, refspec: string, variable: string, remoteName: string, faults: set<Op>): State -> Outcome<State>
    requires |args.refType| > 0
  {
    (t: State) => WithRemote(t, remoteName, args.remoteUrl, Deleter(args, refspec, variable, remoteName, faults), faults)
  }

  /** `cmd(args)` run on the fresh repository `s`: `letter`, `uuidHex` and
      `remoteName` are the random draws.  An unknown reference type raises
      before anything is touched. */
  function DeleteRemoteRef(s: State, args: DeleteArgs, letter: char, uuidHex: string, remoteName: string, faults: set<Op>): (r: Outcome<State>)
    requires IsLowerLetter(letter) && IsUuidHex(uuidHex)
    ensures RefNamespace(args.refType).None? ==> r == Raised(s, UnexpectedRefType(args.refType))
  {
    match RefNamespace(args.refType)
    case None => Raised(s, UnexpectedRefType(args.refType))
    case Some(ns) =>
      var variable := PasswordVariable(args.password, letter, uuidHex);
      WithConfig(s, CredentialConfig(args.remoteUrl, args.username, variable),
                 InRemote(args, DeleteRefspec(ns, args.refName), variable, remoteName, faults), faults)
  }

  // ---------------------------------------------------------------------
  // A run with a known reference type

  /** What the theorems assume: a known type, fresh remote and password
      variable names, and no failure but (possibly) the push. */
  predicate Runnable(s: State, args: DeleteArgs, letter: char, uuidHex: string, remoteName: string, faults: set<Op>) {
    && IsLowerLetter(letter) && IsUuidHex(uuidHex)
    && RefNamespace(args.refType).Some?
    && remoteName !in s.remotes
    && (args.password.Some? ==> PasswordVariable(args.password, letter, uuidHex) !in s.env)
    && faults <= {Op.Push(DeleteRefspec(RefNamespace(args.refType).value, args.refName))}
  }

  /** The push's record of the deletion: the refspec, no local source, no
      force, and the credentials of the override. */
  function ExpectedDeletion(s: State, args: DeleteArgs): Pushed
    requires RefNamespace(args.refType).Some?
  {
    Pushed(args.remoteUrl, DeleteRefspec(RefNamespace(args.refType).value, args.refName), None, false,
           Some(args.username), HelperPassword(args.password, s.env))
  }

  /** Inside the remote scope: one push, logged as a success, or a failure
      turned into a warning under `--force`; the environment as it was. */
  lemma DeletionInRemote(y: State, args: DeleteArgs, refspec: string, variable: string, remoteName: string, faults: set<Op>)
    requires |args.refType| > 0
    requires remoteName in y.remotes
    requires args.password.Some? ==> variable !in y.env
    ensures var r := DeleteWithPassword(y, args, refspec, variable, remoteName, faults);
            var url := y.remotes[remoteName];
            var cred := CredentialsFor(SetPassword(y, args.password, variable), url);
            && (Op.Push(refspec) !in faults ==>
                  r == Ok(y.(pushed := y.pushed + [Pushed(url, refspec, None, false, cred.0, cred.1)],
                             log := y.log + [Info(SuccessMessage(args.refType, args.refName))])))
            && (Op.Push(refspec) in faults && args.force ==>
                  r == Ok(y.(log := y.log + [Warn(FailureMessage(args.refType, args.refName))])))
            && (Op.Push(refspec) in faults && !args.force ==>
                  r == Raised(y, Failed(Op.Push(refspec))))
  {
    var p := PushDelete(SetPassword(y, args.password, variable), remoteName, refspec, faults);
    PasswordScopeLeavesEnv(y, args.password, variable, p.state);
    var q := p.state.(log := p.state.log + [Info(SuccessMessage(args.refType, args.refName))]);
    PasswordScopeLeavesEnv(y, args.password, variable, q);
    var w := p.state.(log := p.state.log + [Warn(FailureMessage(args.refType, args.refName))]);
    PasswordScopeLeavesEnv(y, args.password, variable, w);
  }

  /** How the remote scope ends, from the state `t` it is entered in. */
  function RemoteEnd(t: State, args: DeleteArgs, variable: string, remoteName: string, faults: set<Op>): Outcome<State>
    requires RefNamespace(args.refType).Some?
  {
    var refspec := DeleteRefspec(RefNamespace(args.refType).value, args.refName);
    var y := t.(remotes := t.remotes[remoteName := args.remoteUrl]);
    var cred := CredentialsFor(SetPassword(y, args.password, variable), args.remoteUrl);
    if Op.Push(refspec) !in faults then
      Ok(t.(pushed := t.pushed + [Pushed(args.remoteUrl, refspec, None, false, cred.0, cred.1)],
            log := t.log + [Info(SuccessMessage(args.refType, args.refName))]))
    else if args.force then Ok(t.(log := t.log + [Warn(FailureMessage(args.refType, args.refName))]))
    else Raised(y, Failed(Op.Push(refspec)))
  }

  /** The remote scope around the deletion: it is removed again after a
      success and after a failure swallowed by `--force`, but not when the
      failure propagates. */
  lemma RemoteLayer(t: State, args: DeleteArgs, variable: string, remoteName: string, faults: set<Op>)
    requires RefNamespace(args.refType).Some?
    requires remoteName !in t.remotes
    requires args.password.Some? ==> variable !in t.env
    requires faults <= {Op.Push(DeleteRefspec(RefNamespace(args.refType).value, args.refName))}
    ensures var refspec := DeleteRefspec(RefNamespace(args.refType).value, args.refName);
            WithRemote(t, remoteName, args.remoteUrl, Deleter(args, refspec, variable, remoteName, faults), faults)
              == RemoteEnd(t, args, variable, remoteName, faults)
  {
    var refspec := DeleteRefspec(RefNamespace(args.refType).value, args.refName);
    var y := t.(remotes := t.remotes[remoteName := args.remoteUrl]);
    var deleter := Deleter(args, refspec, variable, remoteName, faults);
    DeletionInRemote(y, args, refspec, variable, remoteName, faults);
    assert deleter(y) == DeleteWithPassword(y, args, refspec, variable, remoteName, faults);
    var r := deleter(y);
    if Op.Push(refspec) !in faults || args.force {
      assert r.Ok? && r.state.remotes == y.remotes;
      RemoteScopeCleans(t, remoteName, args.remoteUrl, deleter, faults);
      CleanedEnd(t, args, variable, remoteName, faults, r.state);
    }
  }

  /** A deletion that returns normally leaves `t` with only the push record
      and the log line added. */
  lemma CleanedEnd(t: State, args: DeleteArgs, variable: string, remoteName: string, faults: set<Op>, z: State)
    requires RefNamespace(args.refType).Some?
    requires var refspec := DeleteRefspec(RefNamespace(args.refType).value, args.refName);
             var y := t.(remotes := t.remotes[remoteName := args.remoteUrl]);
             var cred := CredentialsFor(SetPassword(y, args.password, variable), args.remoteUrl);
             && (Op.Push(refspec) !in faults ==>
                   z == y.(pushed := y.pushed + [Pushed(args.remoteUrl, refspec, None, false, cred.0, cred.1)],
                           log := y.log + [Info(SuccessMessage(args.refType, args.refName))]))
             && (Op.Push(refspec) in faults ==> args.force && z == y.(log := y.log + [Warn(FailureMessage(args.refType, args.refName))]))
    ensures RemoteEnd(t, args, variable, remoteName, faults) == Ok(z.(remotes := t.remotes))
  {
  }

  /** The credential override around the remote scope: in force inside,
      gone afterwards. */
  lemma ConfigLayer(s: State, args: DeleteArgs, letter: char, uuidHex: string, remoteName: string, faults: set<Op>)
    requires Runnable(s, args, letter, uuidHex, remoteName, faults)
    ensures var v := PasswordVariable(args.password, letter, uuidHex);
            var ov := CredentialConfig(args.remoteUrl, args.username, v);
            var t := Entered(s, ov, faults);
            && Val(t.config, CredentialSection(args.remoteUrl), "username") == Some([args.username])
            && Val(t.config, CredentialSection(args.remoteUrl), "helper") == Some([HelperCommand(v)])
    ensures var v := PasswordVariable(args.password, letter, uuidHex);
            var o := RemoteEnd(Entered(s, CredentialConfig(args.remoteUrl, args.username, v), faults), args, v, remoteName, faults);
            DeleteRemoteRef(s, args, letter, uuidHex, remoteName, faults) == o.WithState(o.state.(config := s.config))
  {
    var refspec := DeleteRefspec(RefNamespace(args.refType).value, args.refName);
    var v := PasswordVariable(args.password, letter, uuidHex);
    var ov := CredentialConfig(args.remoteUrl, args.username, v);
    var t := Entered(s, ov, faults);
    PushIsNoConfigCall(refspec, ov, faults);
    CredentialsInForce(s, ov, faults);
    ApplyOutcome(s.config, ov, faults);
    RemoteLayer(t, args, v, remoteName, faults);
    RemoteEndKeepsConfig(t, args, v, remoteName, faults);
    ConfigScopeRestores(s, ov, InRemote(args, refspec, v, remoteName, faults), faults);
  }

  /** A faulted push leaves the override's writes and restores alone. */
  lemma PushIsNoConfigCall(refspec: string, ov: Override, faults: set<Op>)
    requires faults <= {Op.Push(refspec)}
    ensures faults !! ConfigOps(ov)
  {
    if Op.Push(refspec) in ConfigOps(ov) {
      ConfigOpsAreConfigCalls(ov, Op.Push(refspec));
    }
  }

  /** Inside the scope the first two options of the override hold their new values. */
  lemma CredentialsInForce(s: State, ov: Override, faults: set<Op>)
    requires WellFormed(ov) && |ov| >= 2 && faults !! ConfigOps(ov)
    ensures var cfg := Entered(s, ov, faults).config;
            && Val(cfg, ov[0].section, ov[0].option) == Some([ov[0].value])
            && Val(cfg, ov[1].section, ov[1].option) == Some([ov[1].value])
  {
    FaultFreeApplySucceeds(ov, faults);
    ApplyOutcome(s.config, ov, faults);
    ApplyWrites(s.config, ov, faults);
  }

  /** The remote scope does not touch the configuration. */
  lemma RemoteEndKeepsConfig(t: State, args: DeleteArgs, variable: string, remoteName: string, faults: set<Op>)
    requires RefNamespace(args.refType).Some?
    ensures RemoteEnd(t, args, variable, remoteName, faults).state.config == t.config
  {
  }

  /** The whole command with a known reference type.  A successful push is
      recorded with the credentials of the override and logged; a failed
      one is logged as a warning under `--force`, with the temporary remote
      removed, and otherwise propagates with the remote left behind.  The
      configuration and the environment are as before in every case. */
  lemma DeleteRemoteRefOutcome(s: State, args: DeleteArgs, letter: char, uuidHex: string, remoteName: string, faults: set<Op>)
    requires Runnable(s, args, letter, uuidHex, remoteName, faults)
    ensures var refspec := DeleteRefspec(RefNamespace(args.refType).value, args.refName);
            var r := DeleteRemoteRef(s, args, letter, uuidHex, remoteName, faults);
            && (Op.Push(refspec) !in faults ==>
                  r == Ok(s.(pushed := s.pushed + [ExpectedDeletion(s, args)],
                             log := s.log + [Info(SuccessMessage(args.refType, args.refName))])))
            && (Op.Push(refspec) in faults && args.force ==>
                  r == Ok(s.(log := s.log + [Warn(FailureMessage(args.refType, args.refName))])))
            && (Op.Push(refspec) in faults && !args.force ==>
                  r == Raised(s.(remotes := s.remotes[remoteName := args.remoteUrl]), Failed(Op.Push(refspec))))
  {
    var v := PasswordVariable(args.password, letter, uuidHex);
    var t := Entered(s, CredentialConfig(args.remoteUrl, args.username, v), faults);
    ConfigLayer(s, args, letter, uuidHex, remoteName, faults);
    var y := t.(remotes := t.remotes[remoteName := args.remoteUrl]);
    HelperCredentials(y, args.remoteUrl, args.username, args.password, v);
  }
}
