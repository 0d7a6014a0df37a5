/** `g-push-rev` (lib/cmd/g-push-rev.py:116-243): pushes a revision of the
local repository to a remote under a temporary tag or branch.

The scopes nest as in the source: the configuration override (credentials
and, when needed, a committer identity) outermost, then HEAD kept, then
(optionally) the revision amended with a signature, then the reference made
unique, then the temporary remote, and innermost the push with the
password in a temporary environment variable. */
module PushRev {
  import opened Outcomes
  import opened GitConfig
  import opened GitRepo
  import opened Credentials
  import opened ConfigScope
  import opened SigningScope
  import opened HeadScope
  import opened RefScope
  import opened RemoteScope

  const RevSigningKeyVariable: string := "GCHL_REV_SIGNING_KEY"
  const RefSigningKeyVariable: string := "GCHL_REF_SIGNING_KEY"
  const IdentityName: string := "g-push-rev"
  const IdentityEmail: string := "g-push-rev@git-ci-hub-lab"

  /** The command line.  `rev` is what `repo.commit(REV_ID)` finds in the
      repository (None when REV_ID names no commit); optional arguments that
      were not given are None. */
  datatype PushArgs = PushArgs(
    remoteUrl: string,
    username: string,
    password: Option<string>,
    rev: Option<Sha>,
    revSigningFormat: string,
    revSigningKey: Option<string>,
    refType: string,
    refName: Option<string>,
    refMessage: Option<string>,
    refSigningFormat: string,
    refSigningKey: Option<string>,
    forcePush: bool,
    safePath: bool)

  /** What the command draws at random or learns from git as it goes: the
      letter and UUID of the password variable, the names of the reference
      scope, the path of the revision's temporary key, the remote name, and
      the name git gives the amended commit. */
  datatype Draws = Draws(
    letter: char,
    passwordUuid: string,
    refNames: RefNames,
    revKeyPath: string,
    remoteName: string,
    amendedSha: Sha)

  /** What `random.choice(string.ascii_lowercase)` and `uuid4().hex` can return. */
  predicate ValidDraws(d: Draws) {
    IsLowerLetter(d.letter) && IsUuidHex(d.passwordUuid)
  }

  /** Python truthiness of an optional string. */
  predicate Truthy(o: Option<string>) {
    o.Some? && o.value != ""
  }

  // ---------------------------------------------------------------------
  // Pure parts of the command

  /** Lines 147-152: a committer identity is needed for an annotated or
      signed tag and for a signed revision. */
  predicate NameNeeded(args: PushArgs) {
    || (args.refType == TAG && (Truthy(args.refMessage) || args.refSigningFormat != SIGNING_FORMAT_NONE))
    || args.revSigningFormat != SIGNING_FORMAT_NONE
  }

  function IdentityConfig(): Override {
    [Setting(UserSection, "name", IdentityName), Setting(UserSection, "email", IdentityEmail)]
  }

  /** Lines 121-158: the override the command runs under.  Everything is in
      the repository scope; the credential section comes first with the
      user name and the helper reading `variable`; `user.name` and
      `user.email` are there exactly when an identity is needed. */
  function PushConfig(args: PushArgs, variable: string): (ov: Override)
    ensures WellFormed(ov)
    ensures forall i :: 0 <= i < |ov| ==> ov[i].section.scope == "repository"
    ensures |ov| >= 2
    ensures ov[0] == Setting(CredentialSection(args.remoteUrl), "username", args.username)
    ensures ov[1].section == CredentialSection(args.remoteUrl) && ov[1].option == "helper"
    ensures HelperVariable(ov[1].value) == Some(variable)
    ensures NameNeeded(args) <==> exists i :: 0 <= i < |ov| && ov[i].section == UserSection
    ensures forall i :: 0 <= i < |ov| && ov[i].section == UserSection ==>
              || (ov[i].option == "name" && ov[i].value == IdentityName)
              || (ov[i].option == "email" && ov[i].value == IdentityEmail)
    ensures NameNeeded(args) ==> |ov| == 4 && ov[2] == IdentityConfig()[0] && ov[3] == IdentityConfig()[1]
  {
    var cred := CredentialConfig(args.remoteUrl, args.username, variable);
    if NameNeeded(args) then
      var id := IdentityConfig();
      IdentityWellFormed();
      assert CredentialSection(args.remoteUrl).name[0] != UserSection.name[0];
      assert Keys(cred) == {Key(cred[0]), Key(cred[1])} by {
        assert cred[1..][1..] == [];
      }
      assert Keys(id) == {Key(id[0]), Key(id[1])} by {
        assert id[1..][1..] == [];
      }
      WellFormedAppend(cred, id);
      cred + id
    else cred
  }

  lemma IdentityWellFormed()
    ensures WellFormed(IdentityConfig())
  {
    var id := IdentityConfig();
    assert id[1..][1..] == [];
    assert Keys(id[1..]) == {Key(id[1])};
  }

  /** Lines 179-183 and 198-202: the key given on the command line, or else
      the one in the environment variable; a missing or empty choice is not
      bytes and cannot be written to the key file.  (The base64 decoding of
      the chosen text is not modelled.) */
  function KeyMaterial(arg: Option<string>, env: map<string, string>, variable: string): (k: Option<string>)
    ensures Truthy(arg) ==> k == arg
    ensures !Truthy(arg) ==> (k.Some? <==> variable in env && env[variable] != "")
    ensures !Truthy(arg) && k.Some? ==> k.value == env[variable]
  {
    var chosen := if Truthy(arg) then arg else if variable in env then Some(env[variable]) else None;
    if Truthy(chosen) then chosen else None
  }

  /** `s[:n]` in Python. */
  function Take(s: string, n: nat): string {
    if |s| <= n then s else s[..n]
  }

  /** Lines 172-175. */
  function DefaultRefName(refType: string, sha: Sha): string {
    "gchl-" + refType + "-" + Take(sha, 8)
  }

  /** The default name is the fixed prefix, the reference type and the
      first (up to) eight characters of the commit, so the commit can be
      told from it. */
  lemma DefaultRefNameParts(refType: string, sha: Sha)
    ensures var r := DefaultRefName(refType, sha);
            var head := "gchl-" + refType + "-";
            && |r| == |head| + (if |sha| < 8 then |sha| else 8)
            && r[..|head|] == head
            && r[|head|..] == sha[..|r| - |head|]
  {
    var head := "gchl-" + refType + "-";
    var r := DefaultRefName(refType, sha);
    assert r[..|head|] == head;
    assert r[|head|..] == Take(sha, 8);
  }

  /** Lines 171-175: the given name, or the default one for the commit. */
  function RefName(args: PushArgs, c: Sha): string {
    if Truthy(args.refName) then args.refName.value else DefaultRefName(args.refType, c)
  }

  /** Lines 191-196: a signed reference without a message gets "signed". */
  function RefMessage(args: PushArgs): (m: string)
    ensures Truthy(args.refMessage) ==> m == args.refMessage.value
    ensures !Truthy(args.refMessage) ==>
              && (args.refSigningFormat != SIGNING_FORMAT_NONE ==> m == "signed")
              && (args.refSigningFormat == SIGNING_FORMAT_NONE ==> m == "")
    ensures args.refSigningFormat != SIGNING_FORMAT_NONE ==> m != ""
  {
    if Truthy(args.refMessage) then args.refMessage.value
    else if args.refSigningFormat != SIGNING_FORMAT_NONE then "signed"
    else ""
  }

  // ---------------------------------------------------------------------
  // Signing the revision (lines 184-189)

  /** Which amend a run makes: the one lines 185-188 make, or the evidently
      intended one.  `PushRevision(..., AsWritten, ...)` is the command as
      it stands. */
  datatype Amending = AsWritten | Intended

  /** Lines 185-188 as written: `repo.head.reference = commit` moves HEAD
      without touching the index, so `git commit --amend` records the tree
      of the index, which is that of the commit HEAD was on before. */
  function SignRevisionAsWritten(v: State, c: Sha, newSha: Sha, faults: set<Op>): (r: Outcome<State>)
    ensures Op.SetHead !in faults && Op.Amend !in faults && c in v.commits ==>
              r == Ok(v.(commits := v.commits[newSha := CommitInfo(v.work.index, v.commits[c].parents, v.commits[c].message, true)],
                         head := Detached(newSha)))
  {
    var h := GitRepo.SetHead(v, Detached(c), faults);
    if h.Raised? then h else GitRepo.Amend(h.state, newSha, h.state.work.index, faults)
  }

  /** Lines 185-188 as evidently intended: the revision itself is amended,
      so the new commit has the revision's tree, parents and message, now
      signed, and HEAD is detached at it. */
  function SignRevision(v: State, c: Sha, newSha: Sha, faults: set<Op>): (r: Outcome<State>)
    ensures Op.SetHead !in faults && Op.Amend !in faults && c in v.commits ==>
              r == Ok(v.(commits := v.commits[newSha := v.commits[c].(signed := true)], head := Detached(newSha)))
    ensures Op.SetHead in faults ==> r == Raised(v, Failed(Op.SetHead))
    ensures Op.SetHead !in faults && c !in v.commits ==> r == Raised(v.(head := Detached(c)), Failed(Op.Amend))
  {
    var h := GitRepo.SetHead(v, Detached(c), faults);
    if h.Raised? then h
    else if c !in h.state.commits then Raised(h.state, Failed(Op.Amend))
    else GitRepo.Amend(h.state, newSha, h.state.commits[c].tree, faults)
  }

  /** Inside `git_keep_head` the index is HEAD's tree, so the commit the
      source makes has the revision's tree exactly when HEAD's tree already
      was the revision's tree. */
  lemma AsWrittenTreeIsHeadTree(v: State, c: Sha, newSha: Sha, faults: set<Op>)
    requires Op.SetHead !in faults && Op.Amend !in faults && c in v.commits
    requires !NeedsStash(v)
    ensures var r := SignRevisionAsWritten(v, c, newSha, faults);
            && r.Ok? && newSha in r.state.commits
            && Some(r.state.commits[newSha].tree) == HeadTree(v)
            && (r.state.commits[newSha].tree == v.commits[c].tree <==> HeadTree(v) == Some(v.commits[c].tree))
  {
  }

  /** A concrete case: HEAD on `main` at commit "h" with tree "T1"; signing
      revision "r" (tree "T2", parent "h") produces a commit with tree "T1",
      which undoes the changes of "r", whereas the corrected signing keeps
      "T2". */
  lemma AmendRecordsWrongTree()
    ensures var v := State(map[], map[], map["main" := "h"], Attached("main"),
                           map["h" := CommitInfo("T1", [], "base", false), "r" := CommitInfo("T2", ["h"], "change", false)],
                           WorkArea("T1", "T1", {}), [], map[], map[], {}, [], []);
            var w := SignRevisionAsWritten(v, "r", "n", {});
            var c := SignRevision(v, "r", "n", {});
            && !NeedsStash(v)
            && w.Ok? && "n" in w.state.commits && w.state.commits["n"].tree == "T1"
            && c.Ok? && "n" in c.state.commits && c.state.commits["n"].tree == "T2"
  {
  }

  // ---------------------------------------------------------------------
  // The command

  /** Lines 214-243: the password sits in its variable for the push only;
      without a password nothing is written to or removed from the
      environment. */
  function PushWithPassword(y: State, args: PushArgs, variable: string, name: string, remoteName: string, faults: set<Op>): Outcome<State> {
    var p := PushRef(SetPassword(y, args.password, variable), remoteName, name, args.forcePush, faults);
    p.WithState(PopPassword(p.state, args.password, variable))
  }

  function Pusher(args: PushArgs, variable: string, name: string, remoteName: string, faults: set<Op>): State -> Outcome<State> {
    (y: State) => PushWithPassword(y, args, variable, name, remoteName, faults)
  }

  /** The body of the reference scope: the remote scope around the push. */
  function InRemote(args: PushArgs, draws: Draws, variable: string, name: string, faults: set<Op>): State -> Outcome<State> {
    (x: State) => WithRemote(x, draws.remoteName, args.remoteUrl, Pusher(args, variable, name, draws.remoteName, faults), faults)
  }

  function Signer(mode: Amending, c: Sha, newSha: Sha, faults: set<Op>): State -> Outcome<State> {
    (v: State) => if mode == AsWritten then SignRevisionAsWritten(v, c, newSha, faults) else SignRevision(v, c, newSha, faults)
  }

  /** The reference the command makes for commit `commit`. */
  function Request(args: PushArgs, c: Sha, commit: Sha, env: map<string, string>): RefRequest {
    RefRequest(args.refType, RefName(args, c), commit, RefMessage(args), args.refSigningFormat,
               KeyMaterial(args.refSigningKey, env, RefSigningKeyVariable))
  }

  /** Lines 171-213, inside `git_keep_head`; `c` is the resolved revision. */
  function KeptHead(u: State, args: PushArgs, draws: Draws, mode: Amending, variable: string, c: Sha, faults: set<Op>): Outcome<State> {
    var name := RefName(args, c);
    var signed :=
      if args.revSigningFormat != SIGNING_FORMAT_NONE then
        WithSigning(u, args.revSigningFormat, KeyMaterial(args.revSigningKey, u.env, RevSigningKeyVariable),
                    draws.revKeyPath, Signer(mode, c, draws.amendedSha, faults), faults)
      else Ok(u);
    if signed.Raised? then signed else RefStep(signed.state, args, draws, variable, c, faults)
  }

  /** Lines 184-213 after the signing: the commit to push is HEAD's when the
      revision was signed, the revision itself otherwise. */
  function RefStep(w: State, args: PushArgs, draws: Draws, variable: string, c: Sha, faults: set<Op>): Outcome<State> {
    match (if args.revSigningFormat != SIGNING_FORMAT_NONE then HeadCommit(w) else Some(c))
    case None => Raised(w, Failed(Op.ResolveHead))
    case Some(commit) =>
      WithRefUnique(w, Request(args, c, commit, w.env), draws.refNames, InRemote(args, draws, variable, RefName(args, c), faults), faults)
  }

  function KeptHeadBody(args: PushArgs, draws: Draws, mode: Amending, variable: string, c: Sha, faults: set<Op>): State -> Outcome<State> {
    (u: State) => KeptHead(u, args, draws, mode, variable, c, faults)
  }

  /** Lines 168-170: the revision is resolved under the override. */
  function Resolved(t: State, args: PushArgs, draws: Draws, mode: Amending, variable: string, faults: set<Op>): Outcome<State> {
    match args.rev
    case None => Raised(t, UnknownRevision)
    case Some(c) => WithHeadKept(t, KeptHeadBody(args, draws, mode, variable, c, faults), faults)
  }

  function Resolver(args: PushArgs, draws: Draws, mode: Amending, variable: string, faults: set<Op>): State -> Outcome<State> {
    (t: State) => Resolved(t, args, draws, mode, variable, faults)
  }

  /** `cmd(args)`, with the amend of lines 185-188 as written (`AsWritten`)
      or as intended (`Intended`).  With `--safe-path` the command indexes a
      "global" scope that the override does not have and raises before it
      touches the repository. */
  function PushRevision(s: State, args: PushArgs, draws: Draws, mode: Amending, faults: set<Op>): (r: Outcome<State>)
    requires ValidDraws(draws)
    ensures args.safePath ==> r == Raised(s, NoGlobalScope)
  {
    if args.safePath then Raised(s, NoGlobalScope)
    else
      var variable := PasswordVariable(args.password, draws.letter, draws.passwordUuid);
      WithConfig(s, PushConfig(args, variable), Resolver(args, draws, mode, variable, faults), faults)
  }

  // ---------------------------------------------------------------------
  // A run that reaches the push

  /** What a run that reaches the push needs: no `--safe-path`; a revision
      that resolves to a known commit and a HEAD at a known commit; keys for
      the ssh signatures asked for; a tag or branch type; fresh backup,
      key-file, remote and password-variable names. */
  predicate Feasible(s: State, args: PushArgs, draws: Draws) {
    && ValidDraws(draws)
    && !args.safePath
    && args.rev.Some? && args.rev.value in s.commits
    && HeadTree(s).Some?
    && (|| args.revSigningFormat == SIGNING_FORMAT_NONE
        || (&& args.revSigningFormat == SIGNING_FORMAT_SSH
            && KeyMaterial(args.revSigningKey, s.env, RevSigningKeyVariable).Some?
            && draws.revKeyPath !in s.keyFiles))
    && (args.refType == TAG || args.refType == BRANCH)
    && (args.refType == TAG ==>
          || args.refSigningFormat == SIGNING_FORMAT_NONE
          || (&& args.refSigningFormat == SIGNING_FORMAT_SSH
              && KeyMaterial(args.refSigningKey, s.env, RefSigningKeyVariable).Some?
              && draws.refNames.keyPath !in s.keyFiles))
    && FreshNames(s, RefName(args, args.rev.value), draws.refNames)
    && draws.remoteName !in s.remotes
    && (args.password.Some? ==> PasswordVariable(args.password, draws.letter, draws.passwordUuid) !in s.env)
  }

  /** The only failure the theorems below allow: the push itself. */
  predicate OnlyPushFails(args: PushArgs, faults: set<Op>)
    requires args.rev.Some?
  {
    faults <= {Op.Push(RefName(args, args.rev.value))}
  }

  function Variable(args: PushArgs, draws: Draws): string
    requires ValidDraws(draws)
  {
    PasswordVariable(args.password, draws.letter, draws.passwordUuid)
  }

  /** The commit that gets pushed: the revision, or its signed amendment. */
  function PushedCommit(args: PushArgs, draws: Draws, c: Sha): Sha {
    if args.revSigningFormat != SIGNING_FORMAT_NONE then draws.amendedSha else c
  }

  /** The tree the amended commit records: HEAD's as written (inside
      `git_keep_head` the index is HEAD's tree), the revision's as intended. */
  function AmendedTree(s: State, mode: Amending, c: Sha): string
    requires c in s.commits && HeadTree(s).Some?
  {
    if mode == AsWritten then HeadTree(s).value else s.commits[c].tree
  }

  /** The commits once the revision is signed (if it is): the amended
      commit has the revision's parents and message. */
  function SignedCommits(s: State, args: PushArgs, draws: Draws, mode: Amending, c: Sha): map<Sha, CommitInfo>
    requires c in s.commits && HeadTree(s).Some?
  {
    if args.revSigningFormat != SIGNING_FORMAT_NONE then
      s.commits[draws.amendedSha := s.commits[c].(tree := AmendedTree(s, mode, c), signed := true)]
    else s.commits
  }

  // The state at each level of the nesting.

  function AtConfig(s: State, args: PushArgs, draws: Draws, faults: set<Op>): State
    requires ValidDraws(draws)
  {
    Entered(s, PushConfig(args, Variable(args, draws)), faults)
  }

  function AtSigned(s: State, args: PushArgs, draws: Draws, mode: Amending, faults: set<Op>): State
    requires ValidDraws(draws) && args.rev.Some? && args.rev.value in s.commits && HeadTree(s).Some?
  {
    var u := HeadEntered(AtConfig(s, args, draws, faults));
    if args.revSigningFormat != SIGNING_FORMAT_NONE then
      u.(commits := SignedCommits(s, args, draws, mode, args.rev.value), head := Detached(draws.amendedSha))
    else u
  }

  function AtRef(s: State, args: PushArgs, draws: Draws, mode: Amending, faults: set<Op>): State
    requires ValidDraws(draws) && args.rev.Some? && args.rev.value in s.commits && HeadTree(s).Some?
  {
    var c := args.rev.value;
    RefEntered(AtSigned(s, args, draws, mode, faults), Request(args, c, PushedCommit(args, draws, c), s.env), draws.refNames)
  }

  function AtRemote(s: State, args: PushArgs, draws: Draws, mode: Amending, faults: set<Op>): State
    requires ValidDraws(draws) && args.rev.Some? && args.rev.value in s.commits && HeadTree(s).Some?
  {
    var x := AtRef(s, args, draws, mode, faults);
    x.(remotes := x.remotes[draws.remoteName := args.remoteUrl])
  }

  /** What `remote.push` sends from state `y` through remote `remoteName`. */
  function Record(y: State, args: PushArgs, variable: string, name: string, remoteName: string): Pushed
    requires remoteName in y.remotes
    requires name in y.tags || name in y.branches
  {
    var source := if name in y.tags then PushedTag(y.tags[name]) else PushedBranch(y.branches[name]);
    var url := y.remotes[remoteName];
    var cred := CredentialsFor(SetPassword(y, args.password, variable), url);
    Pushed(url, name, Some(source), args.forcePush, cred.0, cred.1)
  }

  /** The push with the password armed: it ends the way the push ends, and
      the variable is gone again afterwards. */
  lemma PushWithPasswordOk(y: State, args: PushArgs, variable: string, name: string, remoteName: string, faults: set<Op>)
    requires remoteName in y.remotes
    requires (name in y.tags) != (name in y.branches)
    requires args.password.Some? ==> variable !in y.env
    ensures PushWithPassword(y, args, variable, name, remoteName, faults)
              == if Op.Push(name) in faults then Raised(y, Failed(Op.Push(name)))
                 else Ok(y.(pushed := y.pushed + [Record(y, args, variable, name, remoteName)]))
  {
    var p := PushRef(SetPassword(y, args.password, variable), remoteName, name, args.forcePush, faults);
    PasswordScopeLeavesEnv(y, args.password, variable, p.state);
  }

  /** How the remote scope ends. */
  function RemoteResult(s: State, args: PushArgs, draws: Draws, mode: Amending, faults: set<Op>): Outcome<State>
    requires Feasible(s, args, draws)
  {
    var name := RefName(args, args.rev.value);
    var x := AtRef(s, args, draws, mode, faults);
    var y := AtRemote(s, args, draws, mode, faults);
    AtRefFacts(s, args, draws, mode, faults);
    if Op.Push(name) in faults then Raised(y, Failed(Op.Push(name)))
    else Ok(x.(pushed := x.pushed + [Record(y, args, Variable(args, draws), name, draws.remoteName)]))
  }

  /** An outcome carried out to an outer level: the same ending, the outer
      state with what was pushed and the remotes left behind. */
  function Carry(o: Outcome<State>, base: State): Outcome<State> {
    o.WithState(base.(pushed := o.state.pushed, remotes := o.state.remotes))
  }

  lemma AtSignedFacts(s: State, args: PushArgs, draws: Draws, mode: Amending, faults: set<Op>)
    requires Feasible(s, args, draws)
    ensures var w := AtSigned(s, args, draws, mode, faults);
            && w.tags == s.tags && w.branches == s.branches && w.env == s.env && w.keyFiles == s.keyFiles
            && w.remotes == s.remotes && w.pushed == s.pushed
            && w.config == AtConfig(s, args, draws, faults).config
            && (w.head == Attached(RefName(args, args.rev.value)) ==> RefName(args, args.rev.value) in w.branches)
  {
    var t := AtConfig(s, args, draws, faults);
    BodyRunsClean(t);
  }

  /** The reference as the push finds it. */
  lemma AtRefFacts(s: State, args: PushArgs, draws: Draws, mode: Amending, faults: set<Op>)
    requires Feasible(s, args, draws)
    ensures var x := AtRef(s, args, draws, mode, faults);
            var name := RefName(args, args.rev.value);
            && (name in x.tags) != (name in x.branches)
            && x.env == s.env && x.remotes == s.remotes && x.keyFiles == s.keyFiles
            && x.config == AtConfig(s, args, draws, faults).config
            && x.head != Attached(name)
  {
    var c := args.rev.value;
    var w := AtSigned(s, args, draws, mode, faults);
    var req := Request(args, c, PushedCommit(args, draws, c), s.env);
    AtSignedFacts(s, args, draws, mode, faults);
    RefEnteredIsUnique(w, req, draws.refNames);
  }

  /** The push and the remote scope around it. */
  lemma RemoteLayer(s: State, args: PushArgs, draws: Draws, mode: Amending, faults: set<Op>)
    requires Feasible(s, args, draws) && OnlyPushFails(args, faults)
    ensures var name := RefName(args, args.rev.value);
            WithRemote(AtRef(s, args, draws, mode, faults), draws.remoteName, args.remoteUrl,
                       Pusher(args, Variable(args, draws), name, draws.remoteName, faults), faults)
              == RemoteResult(s, args, draws, mode, faults)
    ensures var r := RemoteResult(s, args, draws, mode, faults);
            var x := AtRef(s, args, draws, mode, faults);
            r.state == x.(pushed := r.state.pushed, remotes := r.state.remotes)
  {
    var name := RefName(args, args.rev.value);
    var v := Variable(args, draws);
    var x := AtRef(s, args, draws, mode, faults);
    var y := AtRemote(s, args, draws, mode, faults);
    AtRefFacts(s, args, draws, mode, faults);
    PushWithPasswordOk(y, args, v, name, draws.remoteName, faults);
    var pusher := Pusher(args, v, name, draws.remoteName, faults);
    assert pusher(y) == PushWithPassword(y, args, v, name, draws.remoteName, faults);
    RemotePushCarry(x, draws.remoteName, args.remoteUrl, pusher, name, Record(y, args, v, name, draws.remoteName), faults);
  }

  /** A push inside the remote scope: a success leaves its record and no
      remote; a failure leaves the remote behind. */
  lemma RemotePushCarry(x: State, remoteName: string, url: string, body: State -> Outcome<State>, name: string, rec: Pushed, faults: set<Op>)
    requires remoteName !in x.remotes && faults <= {Op.Push(name)}
    requires var y := x.(remotes := x.remotes[remoteName := url]);
             body(y) == if Op.Push(name) in faults then Raised(y, Failed(Op.Push(name)))
                        else Ok(y.(pushed := y.pushed + [rec]))
    ensures var y := x.(remotes := x.remotes[remoteName := url]);
            WithRemote(x, remoteName, url, body, faults)
              == if Op.Push(name) in faults then Raised(y, Failed(Op.Push(name)))
                 else Ok(x.(pushed := x.pushed + [rec]))
  {
    var y := x.(remotes := x.remotes[remoteName := url]);
    if Op.Push(name) !in faults {
      RemoteScopeCleans(x, remoteName, url, body, faults);
      assert y.(pushed := y.pushed + [rec]).(remotes := x.remotes) == x.(pushed := x.pushed + [rec]);
    }
  }

  /** No scope of the command makes a push: a fault injected into the push
      leaves every scope's own calls alone.  First the configuration scope. */
  lemma PushIsNoConfigCall(name: string, ov: Override)
    ensures Op.Push(name) !in ConfigOps(ov)
  {
    if Op.Push(name) in ConfigOps(ov) {
      ConfigOpsAreConfigCalls(ov, Op.Push(name));
    }
  }

  /** A faulted push leaves the signing scope's calls alone. */
  lemma NoSshFault(args: PushArgs, keyPath: string, faults: set<Op>)
    requires args.rev.Some? && OnlyPushFails(args, faults)
    ensures faults !! SshOps(keyPath)
  {
    PushIsNoConfigCall(RefName(args, args.rev.value), SigningOverride(SIGNING_FORMAT_SSH, keyPath));
  }

  /** A faulted push leaves the reference scope's calls alone. */
  lemma NoRefFault(args: PushArgs, names: RefNames, faults: set<Op>)
    requires args.rev.Some? && OnlyPushFails(args, faults)
    ensures faults !! RefOps(RefName(args, args.rev.value), names)
  {
    NoSshFault(args, names.keyPath, faults);
  }

  /** A faulted push leaves the HEAD scope's calls alone. */
  lemma NoHeadFault(args: PushArgs, faults: set<Op>)
    requires args.rev.Some? && OnlyPushFails(args, faults)
    ensures faults !! HeadOps
  {
  }

  /** A faulted push leaves the override's writes and restores alone. */
  lemma NoConfigFault(args: PushArgs, draws: Draws, faults: set<Op>)
    requires ValidDraws(draws) && args.rev.Some? && OnlyPushFails(args, faults)
    ensures faults !! ConfigOps(PushConfig(args, Variable(args, draws)))
  {
    PushIsNoConfigCall(RefName(args, args.rev.value), PushConfig(args, Variable(args, draws)));
  }

  /** The reference scope around the remote scope. */
  lemma RefLayer(s: State, args: PushArgs, draws: Draws, mode: Amending, faults: set<Op>)
    requires Feasible(s, args, draws) && OnlyPushFails(args, faults)
    ensures var c := args.rev.value;
            var w := AtSigned(s, args, draws, mode, faults);
            WithRefUnique(w, Request(args, c, PushedCommit(args, draws, c), w.env), draws.refNames,
                          InRemote(args, draws, Variable(args, draws), RefName(args, c), faults), faults)
              == Carry(RemoteResult(s, args, draws, mode, faults), w.(head := AtRef(s, args, draws, mode, faults).head))
  {
    var c := args.rev.value;
    var name := RefName(args, c);
    var w := AtSigned(s, args, draws, mode, faults);
    var req := Request(args, c, PushedCommit(args, draws, c), s.env);
    AtSignedFacts(s, args, draws, mode, faults);
    AtRefFacts(s, args, draws, mode, faults);
    RemoteLayer(s, args, draws, mode, faults);
    NoRefFault(args, draws.refNames, faults);
    RefScopeRestores(w, req, draws.refNames, InRemote(args, draws, Variable(args, draws), name, faults), faults);
  }

  /** Signing the revision leaves the configuration and key files as they
      were, with the amended commit added and HEAD detached at it. */
  lemma SignLayer(s: State, args: PushArgs, draws: Draws, mode: Amending, faults: set<Op>)
    requires Feasible(s, args, draws) && OnlyPushFails(args, faults)
    requires args.revSigningFormat != SIGNING_FORMAT_NONE
    ensures var u := HeadEntered(AtConfig(s, args, draws, faults));
            WithSigning(u, args.revSigningFormat, KeyMaterial(args.revSigningKey, u.env, RevSigningKeyVariable),
                        draws.revKeyPath, Signer(mode, args.rev.value, draws.amendedSha, faults), faults)
              == Ok(AtSigned(s, args, draws, mode, faults))
  {
    var c := args.rev.value;
    var u := HeadEntered(AtConfig(s, args, draws, faults));
    HeadEnteredKeeps(s, args, draws, faults);
    EnteredIndexIsHeadTree(s, args, draws, faults);
    assert args.revSigningFormat == SIGNING_FORMAT_SSH;
    NoSshFault(args, draws.revKeyPath, faults);
    SignCarry(u, KeyMaterial(args.revSigningKey, u.env, RevSigningKeyVariable), draws.revKeyPath, c, draws.amendedSha, mode, faults);
  }

  /** Inside `git_keep_head` the index holds HEAD's tree, and HEAD's tree is
      the one the command started with. */
  lemma EnteredIndexIsHeadTree(s: State, args: PushArgs, draws: Draws, faults: set<Op>)
    requires ValidDraws(draws) && HeadTree(s).Some?
    ensures var u := HeadEntered(AtConfig(s, args, draws, faults));
            HeadTree(u) == HeadTree(s) && u.work.index == HeadTree(s).value
  {
    var t := AtConfig(s, args, draws, faults);
    AtConfigKeepsHeadTree(s, args, draws, faults);
    BodyRunsClean(t);
    var u := HeadEntered(t);
    assert u.commits == t.commits && u.branches == t.branches;
  }

  /** The configuration and HEAD scopes leave the commits, the key files
      and the environment alone. */
  lemma HeadEnteredKeeps(s: State, args: PushArgs, draws: Draws, faults: set<Op>)
    requires ValidDraws(draws)
    ensures var u := HeadEntered(AtConfig(s, args, draws, faults));
            u.commits == s.commits && u.keyFiles == s.keyFiles && u.env == s.env
  {
  }

  /** Signing commit `c` in an ssh signing scope: the configuration and key
      files come back, the amended commit and HEAD on it stay. */
  lemma SignCarry(u: State, key: Option<string>, keyPath: string, c: Sha, newSha: Sha, mode: Amending, faults: set<Op>)
    requires key.Some? && keyPath !in u.keyFiles && c in u.commits
    requires faults !! SshOps(keyPath) && Op.SetHead !in faults && Op.Amend !in faults
    ensures var tree := if mode == AsWritten then u.work.index else u.commits[c].tree;
            WithSigning(u, SIGNING_FORMAT_SSH, key, keyPath, Signer(mode, c, newSha, faults), faults)
              == Ok(u.(commits := u.commits[newSha := u.commits[c].(tree := tree, signed := true)], head := Detached(newSha)))
  {
    var tree := if mode == AsWritten then u.work.index else u.commits[c].tree;
    var e := SshEntered(u, keyPath, faults);
    assert e == u.(keyFiles := e.keyFiles, config := e.config);
    var signed := e.(commits := e.commits[newSha := e.commits[c].(tree := tree, signed := true)], head := Detached(newSha));
    assert Signer(mode, c, newSha, faults)(e) == Ok(signed);
    SshSigningTransparent(u, key, keyPath, Signer(mode, c, newSha, faults), faults);
    assert signed.(config := u.config, keyFiles := u.keyFiles)
             == u.(commits := u.commits[newSha := u.commits[c].(tree := tree, signed := true)], head := Detached(newSha));
  }

  /** Everything inside `git_keep_head`. */
  lemma KeptHeadLayer(s: State, args: PushArgs, draws: Draws, mode: Amending, faults: set<Op>)
    requires Feasible(s, args, draws) && OnlyPushFails(args, faults)
    ensures var w := AtSigned(s, args, draws, mode, faults);
            KeptHead(HeadEntered(AtConfig(s, args, draws, faults)), args, draws, mode, Variable(args, draws), args.rev.value, faults)
              == Carry(RemoteResult(s, args, draws, mode, faults), w.(head := AtRef(s, args, draws, mode, faults).head))
  {
    var u := HeadEntered(AtConfig(s, args, draws, faults));
    var v := Variable(args, draws);
    if args.revSigningFormat != SIGNING_FORMAT_NONE {
      SignLayer(s, args, draws, mode, faults);
    }
    assert KeptHead(u, args, draws, mode, v, args.rev.value, faults) == RefStep(AtSigned(s, args, draws, mode, faults), args, draws, v, args.rev.value, faults);
    RefStepLayer(s, args, draws, mode, faults);
  }

  /** After the signing, the reference scope is entered for the commit to push. */
  lemma RefStepLayer(s: State, args: PushArgs, draws: Draws, mode: Amending, faults: set<Op>)
    requires Feasible(s, args, draws) && OnlyPushFails(args, faults)
    ensures var w := AtSigned(s, args, draws, mode, faults);
            RefStep(w, args, draws, Variable(args, draws), args.rev.value, faults)
              == Carry(RemoteResult(s, args, draws, mode, faults), w.(head := AtRef(s, args, draws, mode, faults).head))
  {
    var c := args.rev.value;
    var w := AtSigned(s, args, draws, mode, faults);
    AtSignedFacts(s, args, draws, mode, faults);
    assert RefStep(w, args, draws, Variable(args, draws), c, faults)
             == WithRefUnique(w, Request(args, c, PushedCommit(args, draws, c), w.env), draws.refNames,
                              InRemote(args, draws, Variable(args, draws), RefName(args, c), faults), faults);
    RefLayer(s, args, draws, mode, faults);
  }

  /** A body whose outcome is carried out of the state it was given, with
      the commits and HEAD changed, sees the HEAD scope put back HEAD, the
      work area and the stash. */
  lemma HeadCarry(t: State, body: State -> Outcome<State>, r: Outcome<State>, commits: map<Sha, CommitInfo>, h: Head, faults: set<Op>)
    requires faults !! HeadOps
    requires NeedsStash(t) ==> HeadTree(t).Some?
    requires body(HeadEntered(t)) == Carry(r, HeadEntered(t).(commits := commits, head := h))
    ensures WithHeadKept(t, body, faults) == Carry(r, t.(commits := commits))
  {
    var e := HeadEntered(t);
    var o := body(e);
    assert e == t.(work := e.work, stash := e.stash);
    var inner := e.(commits := commits, head := h, pushed := r.state.pushed, remotes := r.state.remotes);
    assert o.state == inner;
    HeadScopeRestores(t, body, faults);
    var outer := t.(commits := commits, pushed := r.state.pushed, remotes := r.state.remotes);
    assert inner.(head := t.head, work := t.work, stash := t.stash) == outer;
    if r.Ok? {
      assert o == Ok(inner);
    } else {
      assert o == Raised(inner, r.error);
    }
  }

  lemma AtSignedShape(s: State, args: PushArgs, draws: Draws, mode: Amending, faults: set<Op>)
    requires Feasible(s, args, draws)
    ensures var w := AtSigned(s, args, draws, mode, faults);
            w == HeadEntered(AtConfig(s, args, draws, faults)).(commits := SignedCommits(s, args, draws, mode, args.rev.value), head := w.head)
  {
  }

  /** The HEAD scope: HEAD, the work area and the stash are back. */
  lemma HeadLayer(s: State, args: PushArgs, draws: Draws, mode: Amending, faults: set<Op>)
    requires Feasible(s, args, draws) && OnlyPushFails(args, faults)
    ensures var t := AtConfig(s, args, draws, faults);
            WithHeadKept(t, KeptHeadBody(args, draws, mode, Variable(args, draws), args.rev.value, faults), faults)
              == Carry(RemoteResult(s, args, draws, mode, faults), t.(commits := SignedCommits(s, args, draws, mode, args.rev.value)))
  {
    var t := AtConfig(s, args, draws, faults);
    var sc := SignedCommits(s, args, draws, mode, args.rev.value);
    var h := AtRef(s, args, draws, mode, faults).head;
    var body := KeptHeadBody(args, draws, mode, Variable(args, draws), args.rev.value, faults);
    HeadBodyOutcome(s, args, draws, mode, faults);
    AtConfigKeepsHeadTree(s, args, draws, faults);
    NoHeadFault(args, faults);
    HeadCarry(t, body, RemoteResult(s, args, draws, mode, faults), sc, h, faults);
  }

  /** The body of the HEAD scope, in terms of the state the scope hands it. */
  lemma HeadBodyOutcome(s: State, args: PushArgs, draws: Draws, mode: Amending, faults: set<Op>)
    requires Feasible(s, args, draws) && OnlyPushFails(args, faults)
    ensures var u := HeadEntered(AtConfig(s, args, draws, faults));
            KeptHeadBody(args, draws, mode, Variable(args, draws), args.rev.value, faults)(u)
              == Carry(RemoteResult(s, args, draws, mode, faults),
                       u.(commits := SignedCommits(s, args, draws, mode, args.rev.value), head := AtRef(s, args, draws, mode, faults).head))
  {
    KeptHeadLayer(s, args, draws, mode, faults);
    AtSignedShape(s, args, draws, mode, faults);
    var w := AtSigned(s, args, draws, mode, faults);
    var u := HeadEntered(AtConfig(s, args, draws, faults));
    ReHead(w, u, SignedCommits(s, args, draws, mode, args.rev.value), AtRef(s, args, draws, mode, faults).head);
  }

  lemma ReHead(w: State, u: State, commits: map<Sha, CommitInfo>, h: Head)
    requires w == u.(commits := commits, head := w.head)
    ensures w.(head := h) == u.(commits := commits, head := h)
  {
  }

  /** The configuration override does not touch the commits or HEAD. */
  lemma AtConfigKeepsHeadTree(s: State, args: PushArgs, draws: Draws, faults: set<Op>)
    requires ValidDraws(draws)
    ensures HeadTree(AtConfig(s, args, draws, faults)) == HeadTree(s)
  {
    var t := AtConfig(s, args, draws, faults);
    assert t.head == s.head && t.commits == s.commits && t.branches == s.branches;
  }

  /** The whole command, when it reaches the push: the configuration is
      back, the amended commit (if any) stays, and the run ends the way the
      push ended. */
  lemma ConfigLayer(s: State, args: PushArgs, draws: Draws, mode: Amending, faults: set<Op>)
    requires Feasible(s, args, draws) && OnlyPushFails(args, faults)
    ensures PushRevision(s, args, draws, mode, faults)
              == Carry(RemoteResult(s, args, draws, mode, faults), s.(commits := SignedCommits(s, args, draws, mode, args.rev.value)))
  {
    var v := Variable(args, draws);
    var ov := PushConfig(args, v);
    var sc := SignedCommits(s, args, draws, mode, args.rev.value);
    NoConfigFault(args, draws, faults);
    HeadLayer(s, args, draws, mode, faults);
    assert Resolver(args, draws, mode, v, faults)(AtConfig(s, args, draws, faults))
             == WithHeadKept(AtConfig(s, args, draws, faults), KeptHeadBody(args, draws, mode, v, args.rev.value, faults), faults);
    ConfigCarry(s, ov, Resolver(args, draws, mode, v, faults), RemoteResult(s, args, draws, mode, faults), sc, faults);
  }

  /** A body whose outcome is carried out of the state it was given, with
      the commits changed, sees the configuration scope put the
      configuration back. */
  lemma ConfigCarry(s: State, ov: Override, body: State -> Outcome<State>, r: Outcome<State>, commits: map<Sha, CommitInfo>, faults: set<Op>)
    requires WellFormed(ov) && faults !! ConfigOps(ov)
    requires body(Entered(s, ov, faults)) == Carry(r, Entered(s, ov, faults).(commits := commits))
    ensures WithConfig(s, ov, body, faults) == Carry(r, s.(commits := commits))
  {
    var e := Entered(s, ov, faults);
    var o := body(e);
    ApplyOutcome(s.config, ov, faults);
    var inner := e.(commits := commits, pushed := r.state.pushed, remotes := r.state.remotes);
    assert o.state == inner;
    ConfigScopeRestores(s, ov, body, faults);
    var outer := s.(commits := commits, pushed := r.state.pushed, remotes := r.state.remotes);
    assert inner.(config := s.config) == outer;
    if r.Ok? {
      assert o == Ok(inner);
    } else {
      assert o == Raised(inner, r.error);
    }
  }

  /** What the remote receives: the reference named for the revision, from
      the commit that is pushed (the revision or its signed amendment), as a
      tag annotated and signed as asked or as a branch. */
  function ExpectedSource(args: PushArgs, draws: Draws, c: Sha): PushSource {
    var commit := PushedCommit(args, draws, c);
    if args.refType == TAG then PushedTag(TagTarget(commit, RefMessage(args), args.refSigningFormat != SIGNING_FORMAT_NONE))
    else PushedBranch(commit)
  }

  function ExpectedPush(s: State, args: PushArgs, draws: Draws): Pushed
    requires args.rev.Some?
  {
    Pushed(args.remoteUrl, RefName(args, args.rev.value), Some(ExpectedSource(args, draws, args.rev.value)),
           args.forcePush, Some(args.username), HelperPassword(args.password, s.env))
  }

  /** The override is in force inside the command's scopes. */
  lemma AtConfigValues(s: State, args: PushArgs, draws: Draws, faults: set<Op>)
    requires Feasible(s, args, draws) && OnlyPushFails(args, faults)
    ensures var ov := PushConfig(args, Variable(args, draws));
            var cfg := AtConfig(s, args, draws, faults).config;
            && Val(cfg, ov[0].section, ov[0].option) == Some([ov[0].value])
            && Val(cfg, ov[1].section, ov[1].option) == Some([ov[1].value])
  {
    var ov := PushConfig(args, Variable(args, draws));
    NoConfigFault(args, draws, faults);
    FaultFreeApplySucceeds(ov, faults);
    ApplyOutcome(s.config, ov, faults);
    ApplyWrites(s.config, ov, faults);
  }

  /** The push is made with the credentials of the override. */
  lemma PushedRecord(s: State, args: PushArgs, draws: Draws, mode: Amending, faults: set<Op>)
    requires Feasible(s, args, draws) && OnlyPushFails(args, faults)
    ensures var y := AtRemote(s, args, draws, mode, faults);
            var name := RefName(args, args.rev.value);
            && draws.remoteName in y.remotes && (name in y.tags || name in y.branches)
            && Record(y, args, Variable(args, draws), name, draws.remoteName) == ExpectedPush(s, args, draws)
  {
    var y := AtRemote(s, args, draws, mode, faults);
    var name := RefName(args, args.rev.value);
    AtRefFacts(s, args, draws, mode, faults);
    PushedSource(s, args, draws, mode, faults);
    PushedCredentials(s, args, draws, mode, faults);
    assert y.remotes[draws.remoteName] == args.remoteUrl;
  }

  /** The pushed reference is the one the reference scope made. */
  lemma PushedSource(s: State, args: PushArgs, draws: Draws, mode: Amending, faults: set<Op>)
    requires Feasible(s, args, draws)
    ensures var x := AtRef(s, args, draws, mode, faults);
            var name := RefName(args, args.rev.value);
            && (name in x.tags ==> PushedTag(x.tags[name]) == ExpectedSource(args, draws, args.rev.value))
            && (name !in x.tags && name in x.branches ==> PushedBranch(x.branches[name]) == ExpectedSource(args, draws, args.rev.value))
  {
    var c := args.rev.value;
    AtSignedFacts(s, args, draws, mode, faults);
    RefEnteredIsUnique(AtSigned(s, args, draws, mode, faults), Request(args, c, PushedCommit(args, draws, c), s.env), draws.refNames);
  }

  /** The push authenticates with the username and password helper of the override. */
  lemma PushedCredentials(s: State, args: PushArgs, draws: Draws, mode: Amending, faults: set<Op>)
    requires Feasible(s, args, draws) && OnlyPushFails(args, faults)
    ensures var y := AtRemote(s, args, draws, mode, faults);
            CredentialsFor(SetPassword(y, args.password, Variable(args, draws)), args.remoteUrl)
              == (Some(args.username), HelperPassword(args.password, s.env))
  {
    var v := Variable(args, draws);
    var y := AtRemote(s, args, draws, mode, faults);
    AtRefFacts(s, args, draws, mode, faults);
    AtConfigValues(s, args, draws, faults);
    HelperCredentials(y, args.remoteUrl, args.username, args.password, v);
  }

  /** A run that reaches the push ends the way the push ends.  When the push
      goes through, exactly the expected reference has been pushed and
      nothing else is left behind but the amended commit, if the revision
      was signed (`PushedCommitIsRevision` says which tree it has, as written
      and as intended).  When the push fails, the temporary remote is left
      behind as well. */
  lemma PushRevisionReachesPush(s: State, args: PushArgs, draws: Draws, mode: Amending, faults: set<Op>)
    requires Feasible(s, args, draws) && OnlyPushFails(args, faults)
    ensures var name := RefName(args, args.rev.value);
            var commits := SignedCommits(s, args, draws, mode, args.rev.value);
            && (Op.Push(name) !in faults ==>
                  PushRevision(s, args, draws, mode, faults)
                    == Ok(s.(commits := commits, pushed := s.pushed + [ExpectedPush(s, args, draws)])))
            && (Op.Push(name) in faults ==>
                  PushRevision(s, args, draws, mode, faults)
                    == Raised(s.(commits := commits, remotes := s.remotes[draws.remoteName := args.remoteUrl]),
                              Failed(Op.Push(name))))
  {
    ConfigLayer(s, args, draws, mode, faults);
    AtRefFacts(s, args, draws, mode, faults);
    AtSignedFacts(s, args, draws, mode, faults);
    PushedRecord(s, args, draws, mode, faults);
  }

  /** The commit that is pushed exists afterwards with the revision's
      parents and message, and is signed if the revision was to be signed.
      Its tree is the revision's, except that a revision signed by the
      command as written gets the tree HEAD had when the command started.
      No other commit changes. */
  lemma PushedCommitIsRevision(s: State, args: PushArgs, draws: Draws, mode: Amending)
    requires args.rev.Some? && args.rev.value in s.commits && HeadTree(s).Some?
    ensures var c := args.rev.value;
            var commits := SignedCommits(s, args, draws, mode, c);
            var p := PushedCommit(args, draws, c);
            && p in commits
            && commits[p].parents == s.commits[c].parents
            && commits[p].message == s.commits[c].message
            && (args.revSigningFormat != SIGNING_FORMAT_NONE ==> commits[p].signed)
            && (args.revSigningFormat != SIGNING_FORMAT_NONE && mode == AsWritten ==> Some(commits[p].tree) == HeadTree(s))
            && (args.revSigningFormat == SIGNING_FORMAT_NONE || mode == Intended ==> commits[p].tree == s.commits[c].tree)
            && (forall k :: k in s.commits && k != p ==> k in commits && commits[k] == s.commits[k])
  {
  }

  /** A revision that names no commit: the command raises, with the
      configuration already restored and nothing else touched. */
  lemma UnknownRevisionRaises(s: State, args: PushArgs, draws: Draws, mode: Amending, faults: set<Op>)
    requires ValidDraws(draws) && !args.safePath && args.rev.None?
    requires faults !! ConfigOps(PushConfig(args, Variable(args, draws)))
    ensures PushRevision(s, args, draws, mode, faults) == Raised(s, UnknownRevision)
  {
    var v := Variable(args, draws);
    var ov := PushConfig(args, v);
    ApplyOutcome(s.config, ov, faults);
    ConfigScopeRestores(s, ov, Resolver(args, draws, mode, v, faults), faults);
  }
}

