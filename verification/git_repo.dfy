/** The repository and process state the scopes mutate, and the git calls
they make, with the failure conditions git and GitPython give them.

Each call is a pure transition `State -> Outcome<State>`.  Besides its own
failure condition (deleting a tag that does not exist, deleting the
checked-out branch, ...), any call listed in `faults` fails; a faulted call
fails every time it is made. */
module GitRepo {
  import opened Outcomes
  import opened GitConfig
  import Credentials

  type Sha = string

  datatype Head = Attached(branch: string) | Detached(commit: Sha)

  /** What a tag reference points at: a commit (a lightweight tag) or an
      annotated tag object wrapping one. */
  datatype TagRef =
    | ToCommit(sha: Sha)
    | ToTagObject(sha: Sha, message: string, signed: bool)

  datatype CommitInfo = CommitInfo(tree: string, parents: seq<Sha>, message: string, signed: bool)

  /** The index, the checked-out files and the untracked files. */
  datatype WorkArea = WorkArea(index: string, files: string, untracked: set<string>)

  /** The local reference a push sends, as resolved when the push runs. */
  datatype PushSource = PushedTag(tag: TagRef) | PushedBranch(sha: Sha)

  /** A push that reached the remote: where to, what, and with which
      credentials (the password is what the configured helper read). */
  datatype Pushed = Pushed(url: string, refspec: string, source: Option<PushSource>, force: bool,
                           username: Option<string>, password: Option<string>)

  datatype LogLine = Info(text: string) | Warn(text: string)

  datatype State = State(
    config: Config,
    tags: map<string, TagRef>,
    branches: map<string, Sha>,
    head: Head,
    commits: map<Sha, CommitInfo>,
    work: WorkArea,
    stash: seq<WorkArea>,
    remotes: map<string, string>,   // name -> URL
    env: map<string, string>,       // the process environment
    keyFiles: set<string>,          // temporary key files that exist
    pushed: seq<Pushed>,            // what reached remotes
    log: seq<LogLine>)              // info/warn messages

  /** `repo.head.commit`. */
  function HeadCommit(s: State): Option<Sha> {
    match s.head
    case Detached(c) => Some(c)
    case Attached(b) => if b in s.branches then Some(s.branches[b]) else None
  }

  function HeadTree(s: State): Option<string> {
    match HeadCommit(s)
    case Some(c) => if c in s.commits then Some(s.commits[c].tree) else None
    case None => None
  }

  /** `repo.is_dirty() or bool(repo.untracked_files)`. */
  predicate NeedsStash(s: State) {
    || s.work.files != s.work.index
    || HeadTree(s) != Some(s.work.index)
    || s.work.untracked != {}
  }

  /** Replaces the configuration by the one a configuration step produced. */
  function WithConfigOf(s: State, r: Outcome<Config>): Outcome<State> {
    match r
    case Ok(c) => Ok(s.(config := c))
    case Raised(c, e) => Raised(s.(config := c), e)
  }

  // ---------------------------------------------------------------------
  // References

  /** `repo.create_tag(name, target, ..., force=force)`: `git tag` refuses an
      existing name unless forced. */
  function CreateTag(s: State, name: string, target: TagRef, force: bool, faults: set<Op>): Outcome<State> {
    if Op.CreateTag(name) in faults || (name in s.tags && !force) then Raised(s, Failed(Op.CreateTag(name)))
    else Ok(s.(tags := s.tags[name := target]))
  }

  /** `repo.delete_tag(name)`: `git tag -d` fails on a missing tag. */
  function DeleteTag(s: State, name: string, faults: set<Op>): Outcome<State> {
    if Op.DeleteTag(name) in faults || name !in s.tags then Raised(s, Failed(Op.DeleteTag(name)))
    else Ok(s.(tags := s.tags - {name}))
  }

  /** `repo.create_head(name, commit, force=force)`: writes the reference
      file; without force it refuses to move an existing branch elsewhere. */
  function CreateHead(s: State, name: string, sha: Sha, force: bool, faults: set<Op>): Outcome<State> {
    if Op.CreateHead(name) in faults || (!force && name in s.branches && s.branches[name] != sha)
    then Raised(s, Failed(Op.CreateHead(name)))
    else Ok(s.(branches := s.branches[name := sha]))
  }

  /** `repo.delete_head(name, force=True)`: `git branch -D` fails on a
      missing branch and on the branch HEAD is attached to. */
  function DeleteHead(s: State, name: string, faults: set<Op>): Outcome<State> {
    if Op.DeleteHead(name) in faults || name !in s.branches || s.head == Attached(name)
    then Raised(s, Failed(Op.DeleteHead(name)))
    else Ok(s.(branches := s.branches - {name}))
  }

  /** `repo.head.reference = ...`: rewrites HEAD only; the index and the
      files are not touched. */
  function SetHead(s: State, h: Head, faults: set<Op>): Outcome<State> {
    if Op.SetHead in faults then Raised(s, Failed(Op.SetHead)) else Ok(s.(head := h))
  }

  // ---------------------------------------------------------------------
  // Work area

  /** `git stash push --all`: saves index, files and untracked files and
      resets them to HEAD; impossible without a HEAD commit. */
  function StashPush(s: State, faults: set<Op>): Outcome<State> {
    match HeadTree(s)
    case None => Raised(s, Failed(Op.StashPush))
    case Some(t) =>
      if Op.StashPush in faults then Raised(s, Failed(Op.StashPush))
      else Ok(s.(work := WorkArea(t, t, {}), stash := [s.work] + s.stash))
  }

  /** `git stash pop --index` onto a clean work area: brings back the newest
      entry.  Merging it into a changed work area is not modelled. */
  function StashPop(s: State, faults: set<Op>): Outcome<State> {
    if Op.StashPop in faults || s.stash == [] then Raised(s, Failed(Op.StashPop))
    else Ok(s.(work := s.stash[0], stash := s.stash[1..]))
  }

  /** `git commit --amend --no-edit --gpg-sign` recording `tree`: a signed
      commit `newSha` with the parents and message of the HEAD commit, which
      HEAD (or the branch it is attached to) then points at. */
  function Amend(s: State, newSha: Sha, tree: string, faults: set<Op>): Outcome<State> {
    match HeadCommit(s)
    case None => Raised(s, Failed(Op.Amend))
    case Some(c) =>
      if Op.Amend in faults || c !in s.commits then Raised(s, Failed(Op.Amend))
      else
        var info := CommitInfo(tree, s.commits[c].parents, s.commits[c].message, true);
        var s1 := s.(commits := s.commits[newSha := info]);
        match s.head
        case Detached(_) => Ok(s1.(head := Detached(newSha)))
        case Attached(b) => Ok(s1.(branches := s1.branches[b := newSha]))
  }

  // ---------------------------------------------------------------------
  // Temporary key files

  /** `tempfile.NamedTemporaryFile(...)` at a fresh path. */
  function CreateKeyFile(s: State, path: string, faults: set<Op>): Outcome<State> {
    if Op.CreateKeyFile(path) in faults || path in s.keyFiles then Raised(s, Failed(Op.CreateKeyFile(path)))
    else Ok(s.(keyFiles := s.keyFiles + {path}))
  }

  /** `key_file.write(signing_key)`: a missing key is not bytes. */
  function WriteKey(s: State, key: Option<string>, faults: set<Op>): Outcome<State> {
    if key.None? then Raised(s, KeyNotBytes)
    else if Op.WriteKey in faults then Raised(s, Failed(Op.WriteKey))
    else Ok(s)
  }

  /** `key_file.close()`: deletes the file; closing twice is harmless. */
  function CloseKeyFile(s: State, path: string): State {
    s.(keyFiles := s.keyFiles - {path})
  }

  // ---------------------------------------------------------------------
  // Remotes and pushing

  function CreateRemote(s: State, name: string, url: string, faults: set<Op>): Outcome<State> {
    if Op.CreateRemote(name) in faults || name in s.remotes then Raised(s, Failed(Op.CreateRemote(name)))
    else Ok(s.(remotes := s.remotes[name := url]))
  }

  function DeleteRemote(s: State, name: string, faults: set<Op>): Outcome<State> {
    if Op.DeleteRemote(name) in faults || name !in s.remotes then Raised(s, Failed(Op.DeleteRemote(name)))
    else Ok(s.(remotes := s.remotes - {name}))
  }

  /** The first value of an option of the repository configuration. */
  function ConfigValue(s: State, sid: SectionId, opt: string): Option<string> {
    match Val(s.config, sid, opt)
    case Some(vs) => Some(vs[0])
    case None => None
  }

  /** The credentials git hands to the remote at `url`: the configured user
      name, and the password the configured helper reads from the
      environment.  Only the first `helper` value of the repository-scope
      section `credential "<url>"` is consulted. */
  function CredentialsFor(s: State, url: string): (Option<string>, Option<string>) {
    var sid := Credentials.CredentialSection(url);
    var password :=
      match ConfigValue(s, sid, "helper")
      case None => None
      case Some(h) =>
        match Credentials.HelperVariable(h)
        case None => None
        case Some(v) => if v in s.env then Some(s.env[v]) else None;
    (ConfigValue(s, sid, "username"), password)
  }

  /** `os.environ[variable] = password`, done only when a password is given. */
  function SetPassword(s: State, password: Option<string>, variable: string): State {
    if password.Some? then s.(env := s.env[variable := password.value]) else s
  }

  /** `os.environ.pop(variable, None)`, done only when a password is given. */
  function PopPassword(s: State, password: Option<string>, variable: string): State {
    if password.Some? then s.(env := s.env - {variable}) else s
  }

  /** Popping after setting gives back the environment from before, provided
      the variable was fresh; without a password neither step does anything. */
  lemma PasswordScopeLeavesEnv(y: State, password: Option<string>, variable: string, t: State)
    requires password.Some? ==> variable !in y.env
    requires t.env == SetPassword(y, password, variable).env
    ensures PopPassword(t, password, variable) == t.(env := y.env)
    ensures password.Some? ==> variable in t.env && t.env[variable] == password.value
  {
    if password.Some? {
      assert y.env[variable := password.value] - {variable} == y.env;
    }
  }

  /** With the credential section of `Credentials.CredentialConfig` in
      force, git hands the remote the configured user name and the password
      the helper's variable holds once set: the given password, or
      `GCHL_PASSWORD` from the environment. */
  lemma HelperCredentials(y: State, url: string, username: string, password: Option<string>, variable: string)
    requires password.None? ==> variable == Credentials.DefaultPasswordVariable
    requires Val(y.config, Credentials.CredentialSection(url), "username") == Some([username])
    requires Val(y.config, Credentials.CredentialSection(url), "helper") == Some([Credentials.HelperCommand(variable)])
    ensures CredentialsFor(SetPassword(y, password, variable), url) == (Some(username), Credentials.HelperPassword(password, y.env))
  {
    Credentials.HelperNamesItsVariable(variable);
  }

  /** Records a push to the remote `remote` that went through. */
  function Send(s: State, remote: string, refspec: string, source: Option<PushSource>, force: bool): State
    requires remote in s.remotes
  {
    var url := s.remotes[remote];
    var cred := CredentialsFor(s, url);
    s.(pushed := s.pushed + [Pushed(url, refspec, source, force, cred.0, cred.1)])
  }

  /** `remote.push(name, force=...)`.raise_if_error(): the local name must
      resolve to exactly one reference, a tag or a branch. */
  function PushRef(s: State, remote: string, name: string, force: bool, faults: set<Op>): Outcome<State> {
    var op := Op.Push(name);
    if op in faults || remote !in s.remotes || (name in s.tags) == (name in s.branches) then Raised(s, Failed(op))
    else
      var source := if name in s.tags then PushedTag(s.tags[name]) else PushedBranch(s.branches[name]);
      Ok(Send(s, remote, name, Some(source), force))
  }

  /** `remote.push(":" + ref)`.raise_if_error(): a deletion sends no local reference. */
  function PushDelete(s: State, remote: string, refspec: string, faults: set<Op>): Outcome<State> {
    var op := Op.Push(refspec);
    if op in faults || remote !in s.remotes then Raised(s, Failed(op))
    else Ok(Send(s, remote, refspec, None, false))
  }
}
