/** `git_signing(repo, signing_format, signing_key)` (lib/common.py:57-82):
for the ssh format, a temporary key file and a configuration override that
selects the format and points `user.signingkey` at the file; for "none",
nothing at all; for anything else, an AssertionError. */
module SigningScope {
  import opened Outcomes
  import opened GitConfig
  import opened GitRepo
  import opened ConfigScope

  const SIGNING_FORMAT_NONE: string := "none"
  const SIGNING_FORMAT_SSH: string := "ssh"

  const GpgSection: SectionId := SectionId("repository", "gpg")
  const UserSection: SectionId := SectionId("repository", "user")

  /** `{"repository": {"gpg": {"format": ...}, "user": {"signingkey": ...}}}`. */
  function SigningOverride(format: string, keyPath: string): (ov: Override)
    ensures WellFormed(ov)
  {
    var ov := [Setting(GpgSection, "format", format), Setting(UserSection, "signingkey", keyPath)];
    assert ov[1..][1..] == [];
    assert Keys(ov[1..]) == {Key(ov[1])};
    assert WellFormed(ov[1..]);
    ov
  }

  /** The `try: write key; yield; finally: key_file.close()` part.  However
      it ends, the key file is gone when it returns, that is, before the
      configuration override is reverted around it. */
  function KeyFileBody(t: State, key: Option<string>, keyPath: string, body: State -> Outcome<State>, faults: set<Op>): (r: Outcome<State>)
    ensures keyPath !in r.state.keyFiles
  {
    GitRepo.WriteKey(t, key, faults).Then(body).Finally(Closer(keyPath))
  }

  function KeyFiler(key: Option<string>, keyPath: string, body: State -> Outcome<State>, faults: set<Op>): State -> Outcome<State> {
    (t: State) => KeyFileBody(t, key, keyPath, body, faults)
  }

  /** `key_file.close()`: the key file is removed. */
  function Closer(keyPath: string): State -> Outcome<State> {
    (u: State) => Ok(CloseKeyFile(u, keyPath))
  }

  function WithSigning(s: State, format: string, key: Option<string>, keyPath: string,
                       body: State -> Outcome<State>, faults: set<Op>): (r: Outcome<State>)
    ensures format == SIGNING_FORMAT_NONE ==> r == body(s)
    ensures format != SIGNING_FORMAT_NONE && format != SIGNING_FORMAT_SSH ==>
              r == Raised(s, UnexpectedSigningFormat(format))
    ensures format == SIGNING_FORMAT_SSH && keyPath !in s.keyFiles ==> keyPath !in r.state.keyFiles
  {
    if format == SIGNING_FORMAT_NONE then body(s)
    else if format == SIGNING_FORMAT_SSH then
      var f := GitRepo.CreateKeyFile(s, keyPath, faults);
      if f.Raised? then f
      else
        var ov := SigningOverride(format, keyPath);
        WithConfig(f.state, ov, KeyFiler(key, keyPath, body, faults), faults).Finally(Closer(keyPath))
    else Raised(s, UnexpectedSigningFormat(format))
  }

  /** The state the body of an ssh signing scope starts from. */
  function SshEntered(s: State, keyPath: string, faults: set<Op>): State {
    Entered(s.(keyFiles := s.keyFiles + {keyPath}), SigningOverride(SIGNING_FORMAT_SSH, keyPath), faults)
  }

  /** The calls an ssh signing scope makes. */
  function SshOps(keyPath: string): set<Op> {
    {Op.CreateKeyFile(keyPath), Op.WriteKey} + ConfigOps(SigningOverride(SIGNING_FORMAT_SSH, keyPath))
  }

  /** With a key to write, the inner part ends the way the body ends, with
      the key file closed. */
  lemma KeyFileBodyRuns(t: State, key: Option<string>, keyPath: string, body: State -> Outcome<State>, faults: set<Op>)
    requires key.Some? && Op.WriteKey !in faults
    ensures KeyFileBody(t, key, keyPath, body, faults) == body(t).WithState(CloseKeyFile(body(t).state, keyPath))
  {
    assert GitRepo.WriteKey(t, key, faults) == Ok(t);
  }

  /** The ssh branch of the scope, once the key file exists. */
  lemma SshUnfolds(s: State, key: Option<string>, keyPath: string, body: State -> Outcome<State>, faults: set<Op>)
    requires keyPath !in s.keyFiles && Op.CreateKeyFile(keyPath) !in faults
    ensures var f := s.(keyFiles := s.keyFiles + {keyPath});
            WithSigning(s, SIGNING_FORMAT_SSH, key, keyPath, body, faults)
              == WithConfig(f, SigningOverride(SIGNING_FORMAT_SSH, keyPath), KeyFiler(key, keyPath, body, faults), faults)
                   .Finally(Closer(keyPath))
  {
    assert GitRepo.CreateKeyFile(s, keyPath, faults) == Ok(s.(keyFiles := s.keyFiles + {keyPath}));
  }

  /** With the ssh format and a key, the body runs with `gpg.format` set to
      ssh, `user.signingkey` naming the key file and the key file present;
      however the body ends, afterwards the key file is gone and the
      configuration is exactly as before. */
  lemma SshSigningRestores(s: State, key: Option<string>, keyPath: string, body: State -> Outcome<State>, faults: set<Op>)
    requires key.Some? && keyPath !in s.keyFiles
    requires faults !! SshOps(keyPath)
    requires AgreesOutside(s.config, body(SshEntered(s, keyPath, faults)).state.config,
                           SigningOverride(SIGNING_FORMAT_SSH, keyPath))
    ensures var e := SshEntered(s, keyPath, faults);
            && Val(e.config, GpgSection, "format") == Some([SIGNING_FORMAT_SSH])
            && Val(e.config, UserSection, "signingkey") == Some([keyPath])
            && keyPath in e.keyFiles
    ensures var o := body(SshEntered(s, keyPath, faults));
            WithSigning(s, SIGNING_FORMAT_SSH, key, keyPath, body, faults)
              == o.WithState(o.state.(config := s.config, keyFiles := o.state.keyFiles - {keyPath}))
  {
    var o := body(SshEntered(s, keyPath, faults));
    var w := o.WithState(o.state.(config := s.config, keyFiles := o.state.keyFiles - {keyPath}));
    SshUnfolds(s, key, keyPath, body, faults);
    SshInner(s, key, keyPath, body, faults);
    assert o.state.keyFiles - {keyPath} - {keyPath} == o.state.keyFiles - {keyPath};
    assert CloseKeyFile(w.state, keyPath) == w.state;
    SshOverrideInForce(s, keyPath, faults);
  }

  /** The configuration scope inside the ssh branch: the body's outcome with
      the key file closed and the configuration back. */
  lemma SshInner(s: State, key: Option<string>, keyPath: string, body: State -> Outcome<State>, faults: set<Op>)
    requires key.Some?
    requires faults !! SshOps(keyPath)
    requires AgreesOutside(s.config, body(SshEntered(s, keyPath, faults)).state.config,
                           SigningOverride(SIGNING_FORMAT_SSH, keyPath))
    ensures var o := body(SshEntered(s, keyPath, faults));
            WithConfig(s.(keyFiles := s.keyFiles + {keyPath}), SigningOverride(SIGNING_FORMAT_SSH, keyPath), KeyFiler(key, keyPath, body, faults), faults)
              == o.WithState(o.state.(config := s.config, keyFiles := o.state.keyFiles - {keyPath}))
  {
    var ov := SigningOverride(SIGNING_FORMAT_SSH, keyPath);
    var f := s.(keyFiles := s.keyFiles + {keyPath});
    var kb := KeyFiler(key, keyPath, body, faults);
    var e := SshEntered(s, keyPath, faults);
    assert e == Entered(f, ov, faults);
    var o := body(e);
    KeyFileBodyRuns(e, key, keyPath, body, faults);
    assert kb(e) == o.WithState(CloseKeyFile(o.state, keyPath));
    ConfigScopeRestores(f, ov, kb, faults);
  }

  /** Inside the scope the format is ssh and the signing key is the key file. */
  lemma SshOverrideInForce(s: State, keyPath: string, faults: set<Op>)
    requires faults !! SshOps(keyPath)
    ensures var e := SshEntered(s, keyPath, faults);
            && Val(e.config, GpgSection, "format") == Some([SIGNING_FORMAT_SSH])
            && Val(e.config, UserSection, "signingkey") == Some([keyPath])
            && keyPath in e.keyFiles
  {
    var ov := SigningOverride(SIGNING_FORMAT_SSH, keyPath);
    var f := s.(keyFiles := s.keyFiles + {keyPath});
    FaultFreeApplySucceeds(ov, faults);
    ApplyOutcome(f.config, ov, faults);
    ApplyWrites(f.config, ov, faults);
    assert ov[0] == Setting(GpgSection, "format", SIGNING_FORMAT_SSH);
    assert ov[1] == Setting(UserSection, "signingkey", keyPath);
  }

  /** With the ssh format but no key, writing the key file raises: the body
      never runs, and the key file and the configuration are undone. */
  lemma SshSigningWithoutKey(s: State, keyPath: string, body: State -> Outcome<State>, faults: set<Op>)
    requires keyPath !in s.keyFiles
    requires faults !! SshOps(keyPath)
    ensures WithSigning(s, SIGNING_FORMAT_SSH, None, keyPath, body, faults) == Raised(s, KeyNotBytes)
  {
    SshUnfolds(s, None, keyPath, body, faults);
    SshInnerWithoutKey(s, keyPath, body, faults);
    assert CloseKeyFile(s, keyPath) == s;
  }

  /** The configuration scope inside the ssh branch when there is no key:
      the write raises and the key file and the configuration are undone. */
  lemma SshInnerWithoutKey(s: State, keyPath: string, body: State -> Outcome<State>, faults: set<Op>)
    requires keyPath !in s.keyFiles
    requires faults !! SshOps(keyPath)
    ensures WithConfig(s.(keyFiles := s.keyFiles + {keyPath}), SigningOverride(SIGNING_FORMAT_SSH, keyPath), KeyFiler(None, keyPath, body, faults), faults)
              == Raised(s, KeyNotBytes)
  {
    var ov := SigningOverride(SIGNING_FORMAT_SSH, keyPath);
    var f := s.(keyFiles := s.keyFiles + {keyPath});
    var kb := KeyFiler(None, keyPath, body, faults);
    var e := Entered(f, ov, faults);
    var k := Raised(CloseKeyFile(e, keyPath), KeyNotBytes);
    assert kb(e) == k;
    ApplyOutcome(f.config, ov, faults);
    ConfigScopeRestores(f, ov, kb, faults);
    assert s.keyFiles + {keyPath} - {keyPath} == s.keyFiles;
    assert CloseKeyFile(e, keyPath).(config := f.config) == s;
  }

  /** A body that leaves the configuration and the key files alone sees the
      signing scope leave no trace in them either. */
  lemma SshSigningTransparent(s: State, key: Option<string>, keyPath: string, body: State -> Outcome<State>, faults: set<Op>)
    requires key.Some? && keyPath !in s.keyFiles
    requires faults !! SshOps(keyPath)
    requires var e := SshEntered(s, keyPath, faults);
             body(e).state.config == e.config && body(e).state.keyFiles == e.keyFiles
    ensures var o := body(SshEntered(s, keyPath, faults));
            WithSigning(s, SIGNING_FORMAT_SSH, key, keyPath, body, faults)
              == o.WithState(o.state.(config := s.config, keyFiles := s.keyFiles))
  {
    var ov := SigningOverride(SIGNING_FORMAT_SSH, keyPath);
    FaultFreeApplySucceeds(ov, faults);
    ApplyOutcome(s.config, ov, faults);
    SshSigningRestores(s, key, keyPath, body, faults);
    assert s.keyFiles + {keyPath} - {keyPath} == s.keyFiles;
  }
}
