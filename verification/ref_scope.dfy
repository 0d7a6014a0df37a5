/** `git_ref_exists_and_unique(repo, ref_type, ref_name, commit, ...)`
(lib/common.py:102-172): for the duration of the body, the reference
`ref_name` exists only as the requested kind (a tag or a branch) and points
at `commit`.  A tag or branch of that name that already exists is first
copied to a lightweight backup tag with a random name and deleted; it is
recreated from the backup afterwards. */
module RefScope {
  import opened Outcomes
  import opened GitRepo
  import opened SigningScope

  const TAG: string := "tag"
  const BRANCH: string := "branch"

  /** The reference to create.  `message` is the annotation; an absent
      message and an empty one both leave the tag lightweight unless it is
      signed. */
  datatype RefRequest = RefRequest(
    refType: string,
    name: string,
    commit: Sha,
    message: string,
    signingFormat: string,
    signingKey: Option<string>)

  /** The names the scope draws at random: the two backup tags (`uuid4()`)
      and the path of the temporary signing key. */
  datatype RefNames = RefNames(tagBackup: string, branchBackup: string, keyPath: string)

  /** The backups taken: the backup tag of a same-named tag, of a same-named branch. */
  datatype Backups = Backups(tag: Option<string>, branch: Option<string>)

  /** `backup_ref` finds a same-named tag or branch exactly when one exists. */
  function PlannedBackups(s: State, n: string, names: RefNames): Backups {
    Backups(if n in s.tags then Some(names.tagBackup) else None,
            if n in s.branches then Some(names.branchBackup) else None)
  }

  /** The tag `repo.create_tag(name, commit, message, sign=signed)` makes:
      annotated when there is a message or a signature, lightweight otherwise. */
  function TagTarget(commit: Sha, message: string, signed: bool): TagRef {
    if message != "" || signed then ToTagObject(commit, message, signed) else ToCommit(commit)
  }

  // ---------------------------------------------------------------------
  // The steps of the scope

  /** Lines 104-116: a lightweight backup tag for a same-named tag, then one
      for a same-named branch.  Not guarded: a failure propagates at once. */
  function TakeBackups(s: State, n: string, names: RefNames, faults: set<Op>): Outcome<State> {
    var t := if n in s.tags then GitRepo.CreateTag(s, names.tagBackup, s.tags[n], false, faults) else Ok(s);
    if t.Raised? then t else BranchBackup(t.state, n, names.branchBackup, faults)
  }

  /** Lines 131-135: HEAD attached to the branch about to go is detached at its commit. */
  function DetachFrom(s: State, n: string, faults: set<Op>): Outcome<State> {
    if s.head == Attached(n) then
      match HeadCommit(s)
      case None => Raised(s, Failed(Op.ResolveHead))
      case Some(c) => GitRepo.SetHead(s, Detached(c), faults)
    else Ok(s)
  }

  /** Lines 127-136: the conflicting references are deleted. */
  function Displace(s: State, n: string, b: Backups, faults: set<Op>): Outcome<State> {
    var t := if b.tag.Some? then GitRepo.DeleteTag(s, n, faults) else Ok(s);
    if t.Raised? || b.branch.None? then t
    else
      var h := DetachFrom(t.state, n, faults);
      if h.Raised? then h else GitRepo.DeleteHead(h.state, n, faults)
  }

  /** The body of the signing scope: `repo.create_tag(ref_name, commit, message, sign=...)`. */
  function TagCreator(req: RefRequest, faults: set<Op>): State -> Outcome<State> {
    var target := TagTarget(req.commit, req.message, req.signingFormat != SIGNING_FORMAT_NONE);
    (t: State) => GitRepo.CreateTag(t, req.name, target, false, faults)
  }

  /** Lines 142-163: the requested reference; a tag inside a signing scope. */
  function CreateRequested(s: State, req: RefRequest, names: RefNames, faults: set<Op>): Outcome<State> {
    if req.refType == TAG then
      WithSigning(s, req.signingFormat, req.signingKey, names.keyPath, TagCreator(req, faults), faults)
    else if req.refType == BRANCH then GitRepo.CreateHead(s, req.name, req.commit, false, faults)
    else Raised(s, UnexpectedRefType(req.refType))
  }

  /** Lines 167-171: the requested reference is deleted again. */
  function DeleteRequested(s: State, req: RefRequest, faults: set<Op>): Outcome<State> {
    if req.refType == TAG then GitRepo.DeleteTag(s, req.name, faults)
    else if req.refType == BRANCH then GitRepo.DeleteHead(s, req.name, faults)
    else Ok(s)
  }

  /** Line 120-121: the tag back at what the backup points at, then the backup deleted. */
  function RestoreTag(s: State, n: string, backup: string, faults: set<Op>): Outcome<State> {
    if backup !in s.tags then Raised(s, Failed(Op.CreateTag(n)))
    else
      var t := GitRepo.CreateTag(s, n, s.tags[backup], true, faults);
      if t.Raised? then t else GitRepo.DeleteTag(t.state, backup, faults)
  }

  /** Lines 123-124: the branch back at the backup's commit, then the backup deleted. */
  function RestoreBranch(s: State, n: string, backup: string, faults: set<Op>): Outcome<State> {
    if backup !in s.tags then Raised(s, Failed(Op.CreateHead(n)))
    else
      var t := GitRepo.CreateHead(s, n, s.tags[backup].sha, true, faults);
      if t.Raised? then t else GitRepo.DeleteTag(t.state, backup, faults)
  }

  /** `cleanup_and_restore` (lines 118-124). */
  function CleanupAndRestore(s: State, n: string, b: Backups, faults: set<Op>): Outcome<State> {
    var t := if b.tag.Some? then RestoreTag(s, n, b.tag.value, faults) else Ok(s);
    if t.Raised? || b.branch.None? then t else RestoreBranch(t.state, n, b.branch.value, faults)
  }

  /** The scope.  A failed backup propagates untouched; a failed deletion
      runs `cleanup_and_restore` and re-raises; otherwise the creation and
      the body run inside `try`, and the `finally` deletes the requested
      reference and then restores the backups. */
  function WithRefUnique(s: State, req: RefRequest, names: RefNames, body: State -> Outcome<State>, faults: set<Op>): (r: Outcome<State>)
    ensures CleanRun(s, req, names, body, faults) ==>
              && r.state.tags == s.tags && r.state.branches == s.branches
              && (r.Ok? <==> body(RefEntered(s, req, names)).Ok?)
  {
    CleanRunSteps(s, req, names, body, faults);
    var n := req.name;
    var b := PlannedBackups(s, n, names);
    var k := TakeBackups(s, n, names, faults);
    if k.Raised? then k
    else
      var d := Displace(k.state, n, b, faults);
      if d.Raised? then d.Finally((t: State) => CleanupAndRestore(t, n, b, faults))
      else
        CreateRequested(d.state, req, names, faults).Then(body)
          .Finally((t: State) => DeleteRequested(t, req, faults).Then((u: State) => CleanupAndRestore(u, n, b, faults)))
  }

  // ---------------------------------------------------------------------
  // The state the body sees, defined directly

  /** The backup tags taken for the references named `n`. */
  function BackupTags(s: State, n: string, names: RefNames): map<string, TagRef> {
    var forTag := if n in s.tags then map[names.tagBackup := s.tags[n]] else map[];
    var forBranch := if n in s.branches then map[names.branchBackup := ToCommit(s.branches[n])] else map[];
    forTag + forBranch
  }

  /** HEAD once a branch `n` has been deleted from under it. */
  function DisplacedHead(s: State, n: string): Head {
    if s.head == Attached(n) && n in s.branches then Detached(s.branches[n]) else s.head
  }

  /** Every reference named `n` gone, the backups present, HEAD detached if
      it was on branch `n`. */
  function Displaced(s: State, n: string, names: RefNames): State {
    s.(tags := (s.tags + BackupTags(s, n, names)) - {n},
       branches := s.branches - {n},
       head := DisplacedHead(s, n))
  }

  /** The state the body runs in: `Displaced` plus the requested reference. */
  function RefEntered(s: State, req: RefRequest, names: RefNames): State {
    var d := Displaced(s, req.name, names);
    if req.refType == TAG then
      d.(tags := d.tags[req.name := TagTarget(req.commit, req.message, req.signingFormat != SIGNING_FORMAT_NONE)])
    else if req.refType == BRANCH then d.(branches := d.branches[req.name := req.commit])
    else d
  }

  /** What the theorems assume about the random names: fresh, distinct and
      different from the reference's own name. */
  predicate FreshNames(s: State, n: string, names: RefNames) {
    && names.tagBackup != names.branchBackup
    && names.tagBackup != n && names.branchBackup != n
    && names.tagBackup !in s.tags && names.branchBackup !in s.tags
  }

  /** The calls the scope makes around the body. */
  function RefOps(n: string, names: RefNames): set<Op> {
    {Op.CreateTag(names.tagBackup), Op.CreateTag(names.branchBackup), Op.CreateTag(n),
     Op.DeleteTag(names.tagBackup), Op.DeleteTag(names.branchBackup), Op.DeleteTag(n),
     Op.CreateHead(n), Op.DeleteHead(n), Op.SetHead}
    + SshOps(names.keyPath)
  }

  /** The calls `cleanup_and_restore` makes. */
  function CleanupOps(n: string, names: RefNames): set<Op> {
    {Op.CreateTag(n), Op.DeleteTag(names.tagBackup), Op.CreateHead(n), Op.DeleteTag(names.branchBackup)}
  }

  /** Exactly one of `ops` is faulted: all the others go through. */
  lemma OnlyFault(faults: set<Op>, ops: set<Op>, x: Op)
    requires faults * ops == {x}
    ensures faults !! (ops - {x})
  {
  }

  /** The tag can be signed with what the request carries. */
  predicate SigningWorks(s: State, req: RefRequest, names: RefNames) {
    req.refType == TAG ==>
      || req.signingFormat == SIGNING_FORMAT_NONE
      || (req.signingFormat == SIGNING_FORMAT_SSH && req.signingKey.Some? && names.keyPath !in s.keyFiles)
  }

  // ---------------------------------------------------------------------
  // Properties

  /** While the body runs, `n` exists exactly once, as the requested kind,
      at `commit`; a tag is signed iff a signing format is given and is
      annotated iff it is signed or has a message.  A same-named tag or branch
      survives as a backup tag, HEAD is detached at the commit of a
      displaced branch it was on, and no other reference changed. */
  lemma RefEnteredIsUnique(s: State, req: RefRequest, names: RefNames)
    requires FreshNames(s, req.name, names)
    requires req.refType == TAG || req.refType == BRANCH
    ensures var e := RefEntered(s, req, names);
            && (req.refType == TAG ==>
                  && req.name in e.tags && req.name !in e.branches
                  && e.tags[req.name].sha == req.commit
                  && (e.tags[req.name].ToTagObject? <==> (req.message != "" || req.signingFormat != SIGNING_FORMAT_NONE))
                  && (e.tags[req.name].ToTagObject? ==> (e.tags[req.name].signed <==> req.signingFormat != SIGNING_FORMAT_NONE)))
            && (req.refType == BRANCH ==>
                  req.name in e.branches && e.branches[req.name] == req.commit && req.name !in e.tags)
    ensures var e := RefEntered(s, req, names);
            && (req.name in s.tags ==> names.tagBackup in e.tags && e.tags[names.tagBackup] == s.tags[req.name])
            && (req.name in s.branches ==> names.branchBackup in e.tags && e.tags[names.branchBackup] == ToCommit(s.branches[req.name]))
    ensures var e := RefEntered(s, req, names);
            && (s.head == Attached(req.name) && req.name in s.branches ==> e.head == Detached(s.branches[req.name]))
            && (s.head != Attached(req.name) ==> e.head == s.head)
    ensures var e := RefEntered(s, req, names);
            forall x :: x != req.name && x != names.tagBackup && x != names.branchBackup ==>
              (x in e.tags <==> x in s.tags) && (x in e.tags ==> e.tags[x] == s.tags[x]) &&
              (x in e.branches <==> x in s.branches) && (x in e.branches ==> e.branches[x] == s.branches[x])
  {
    DisplacedBackups(s, req.name, names);
    DisplacedOthers(s, req.name, names);
  }

  /** Once displaced, `n` is gone and the backups hold what it named. */
  lemma DisplacedBackups(s: State, n: string, names: RefNames)
    requires FreshNames(s, n, names)
    ensures var d := Displaced(s, n, names);
            && n !in d.tags && n !in d.branches
            && (n in s.tags ==> names.tagBackup in d.tags && d.tags[names.tagBackup] == s.tags[n])
            && (n in s.branches ==> names.branchBackup in d.tags && d.tags[names.branchBackup] == ToCommit(s.branches[n]))
  {
  }

  /** Displacing `n` touches no other reference. */
  lemma DisplacedOthers(s: State, n: string, names: RefNames)
    requires FreshNames(s, n, names)
    ensures var d := Displaced(s, n, names);
            forall x :: x != n && x != names.tagBackup && x != names.branchBackup ==>
              (x in d.tags <==> x in s.tags) && (x in d.tags ==> d.tags[x] == s.tags[x]) &&
              (x in d.branches <==> x in s.branches) && (x in d.branches ==> d.branches[x] == s.branches[x])
  {
  }

  /** Lines 114-116 go through when the backup names are free. */
  lemma TakeBackupsOk(s: State, n: string, names: RefNames, faults: set<Op>)
    requires FreshNames(s, n, names)
    requires Op.CreateTag(names.tagBackup) !in faults && Op.CreateTag(names.branchBackup) !in faults
    ensures TakeBackups(s, n, names, faults) == Ok(s.(tags := s.tags + BackupTags(s, n, names)))
  {
    var forBranch := if n in s.branches then map[names.branchBackup := ToCommit(s.branches[n])] else map[];
    if n in s.tags {
      var t := s.(tags := s.tags[names.tagBackup := s.tags[n]]);
      assert TakeBackups(s, n, names, faults) == BranchBackup(t, n, names.branchBackup, faults);
      BranchBackupOk(t, n, names.branchBackup, faults);
      assert BackupTags(s, n, names) == map[names.tagBackup := s.tags[n]] + forBranch;
      PutTwice(s.tags, names.tagBackup, s.tags[n], names.branchBackup, forBranch);
    } else {
      assert TakeBackups(s, n, names, faults) == BranchBackup(s, n, names.branchBackup, faults);
      BranchBackupOk(s, n, names.branchBackup, faults);
      assert BackupTags(s, n, names) == forBranch;
    }
  }

  /** Line 116: the backup of a same-named branch. */
  function BranchBackup(t: State, n: string, bb: string, faults: set<Op>): Outcome<State> {
    if n in t.branches then GitRepo.CreateTag(t, bb, ToCommit(t.branches[n]), false, faults) else Ok(t)
  }

  lemma BranchBackupOk(t: State, n: string, bb: string, faults: set<Op>)
    requires bb !in t.tags && Op.CreateTag(bb) !in faults
    ensures var forBranch := if n in t.branches then map[bb := ToCommit(t.branches[n])] else map[];
            BranchBackup(t, n, bb, faults) == Ok(t.(tags := t.tags + forBranch))
  {
    if n in t.branches {
      var y := ToCommit(t.branches[n]);
      assert t.tags[bb := y] == t.tags + map[bb := y];
    } else {
      assert t.tags == t.tags + map[];
    }
  }

  /** Writing a key and then perhaps a second one is adding both. */
  lemma PutTwice<V>(m: map<string, V>, a: string, x: V, b: string, second: map<string, V>)
    requires a != b && (second == map[] || (b in second && second == map[b := second[b]]))
    ensures m[a := x] + second == m + (map[a := x] + second)
  {
  }

  /** Lines 127-136 go through once the backups exist. */
  lemma DisplaceOk(s: State, n: string, names: RefNames, faults: set<Op>)
    requires FreshNames(s, n, names)
    requires faults !! {Op.DeleteTag(n), Op.SetHead, Op.DeleteHead(n)}
    ensures Displace(s.(tags := s.tags + BackupTags(s, n, names)), n, PlannedBackups(s, n, names), faults)
              == Ok(Displaced(s, n, names))
  {
    var k := s.(tags := s.tags + BackupTags(s, n, names));
    var b := PlannedBackups(s, n, names);
    var u := if n in s.tags then k.(tags := k.tags - {n}) else k;
    assert (if b.tag.Some? then GitRepo.DeleteTag(k, n, faults) else Ok(k)) == Ok(u);
    if n !in s.tags {
      assert k.tags - {n} == k.tags;
    }
    if n in s.branches {
      var v := u.(head := DisplacedHead(s, n));
      assert DetachFrom(u, n, faults) == Ok(v);
    } else {
      assert s.branches - {n} == s.branches;
    }
  }

  /** Lines 141-163 create the requested reference, leaving no trace of the
      signing scope. */
  lemma CreateOk(s: State, req: RefRequest, names: RefNames, faults: set<Op>)
    requires FreshNames(s, req.name, names)
    requires req.refType == TAG || req.refType == BRANCH
    requires SigningWorks(s, req, names)
    requires faults !! RefOps(req.name, names)
    ensures CreateRequested(Displaced(s, req.name, names), req, names, faults) == Ok(RefEntered(s, req, names))
  {
    var d := Displaced(s, req.name, names);
    if req.refType == TAG && req.signingFormat == SIGNING_FORMAT_SSH {
      var e := SshEntered(d, names.keyPath, faults);
      assert TagCreator(req, faults)(e)
               == Ok(e.(tags := e.tags[req.name := TagTarget(req.commit, req.message, true)]));
      SshSigningTransparent(d, req.signingKey, names.keyPath, TagCreator(req, faults), faults);
    }
  }

  /** Lines 167-171 remove the requested reference, which leaves the
      references as they were after the displacement. */
  lemma DeleteRequestedOk(s: State, req: RefRequest, names: RefNames, t: State, faults: set<Op>)
    requires FreshNames(s, req.name, names)
    requires req.refType == TAG || req.refType == BRANCH
    requires faults !! RefOps(req.name, names)
    requires t.tags == RefEntered(s, req, names).tags && t.branches == RefEntered(s, req, names).branches
    requires t.head != Attached(req.name)
    ensures var d := Displaced(s, req.name, names);
            DeleteRequested(t, req, faults) == Ok(t.(tags := d.tags, branches := d.branches))
  {
    var n := req.name;
    var d := Displaced(s, n, names);
    if req.refType == TAG {
      assert t.tags - {n} == d.tags;
    } else {
      assert t.branches - {n} == d.branches;
    }
  }

  /** The tags once a displaced tag is back: only the branch's backup remains. */
  function TagsAfterTagRestore(s: State, n: string, names: RefNames): map<string, TagRef> {
    if n in s.branches then s.tags[names.branchBackup := ToCommit(s.branches[n])] else s.tags
  }

  /** Moving a value out to a fresh key and back restores the map. */
  lemma BackAndForth<V>(m: map<string, V>, n: string, tb: string, extra: map<string, V>)
    requires n in m && tb !in m && tb != n && tb !in extra && n !in extra
    ensures ((m + (map[tb := m[n]] + extra)) - {n})[n := m[n]] - {tb} == m + extra
  {
    var r := ((m + (map[tb := m[n]] + extra)) - {n})[n := m[n]] - {tb};
    forall x ensures (x in r <==> x in m + extra) && (x in r ==> r[x] == (m + extra)[x]) {
    }
  }

  /** The backup of a same-named branch, if any. */
  function BranchBackupTag(s: State, n: string, names: RefNames): map<string, TagRef> {
    if n in s.branches then map[names.branchBackup := ToCommit(s.branches[n])] else map[]
  }

  /** Only the branch's backup stays once the tag is back. */
  lemma BranchBackupAdds(s: State, n: string, names: RefNames)
    ensures TagsAfterTagRestore(s, n, names) == s.tags + BranchBackupTag(s, n, names)
  {
    if n in s.branches {
      assert s.tags[names.branchBackup := ToCommit(s.branches[n])] == s.tags + map[names.branchBackup := ToCommit(s.branches[n])];
    } else {
      assert s.tags == s.tags + map[];
    }
  }

  /** Line 119-121: the tag comes back from its backup, which goes. */
  lemma RestoreTagOk(s: State, n: string, names: RefNames, u: State, faults: set<Op>)
    requires FreshNames(s, n, names) && n in s.tags
    requires Op.CreateTag(n) !in faults && Op.DeleteTag(names.tagBackup) !in faults
    requires u.tags == Displaced(s, n, names).tags
    ensures RestoreTag(u, n, names.tagBackup, faults) == Ok(u.(tags := TagsAfterTagRestore(s, n, names)))
  {
    var extra := BranchBackupTag(s, n, names);
    BranchBackupAdds(s, n, names);
    assert BackupTags(s, n, names) == map[names.tagBackup := s.tags[n]] + extra;
    RestoreTagSteps(s.tags, n, names.tagBackup, extra, u, faults);
  }

  /** Without a displaced tag there is nothing to restore. */
  lemma NoTagBackup(s: State, n: string, names: RefNames, u: State)
    requires FreshNames(s, n, names) && n !in s.tags
    requires u.tags == Displaced(s, n, names).tags
    ensures u.tags == TagsAfterTagRestore(s, n, names)
  {
    BranchBackupAdds(s, n, names);
    var extra := BranchBackupTag(s, n, names);
    assert BackupTags(s, n, names) == map[] + extra;
    Unions(s.tags, extra, n);
  }

  /** Adding to the empty map adds nothing; removing an absent key removes nothing. */
  lemma Unions<V>(m: map<string, V>, extra: map<string, V>, n: string)
    requires n !in m && n !in extra
    ensures map[] + extra == extra
    ensures (m + (map[] + extra)) - {n} == m + extra
  {
  }

  lemma RestoreTagSteps(m: map<string, TagRef>, n: string, tb: string, extra: map<string, TagRef>, u: State, faults: set<Op>)
    requires n in m && tb !in m && tb != n && tb !in extra && n !in extra
    requires Op.CreateTag(n) !in faults && Op.DeleteTag(tb) !in faults
    requires u.tags == (m + (map[tb := m[n]] + extra)) - {n}
    ensures RestoreTag(u, n, tb, faults) == Ok(u.(tags := m + extra))
  {
    var t1 := u.(tags := u.tags[n := m[n]]);
    assert GitRepo.CreateTag(u, n, m[n], true, faults) == Ok(t1);
    BackAndForth(m, n, tb, extra);
  }

  /** Lines 122-124: the branch comes back from its backup, which goes. */
  lemma RestoreBranchOk(s: State, n: string, names: RefNames, v: State, faults: set<Op>)
    requires FreshNames(s, n, names)
    requires Op.CreateHead(n) !in faults && Op.DeleteTag(names.branchBackup) !in faults
    requires v.tags == TagsAfterTagRestore(s, n, names)
    requires v.branches == s.branches - {n} || v.branches == s.branches
    ensures var w := if n in s.branches then RestoreBranch(v, n, names.branchBackup, faults) else Ok(v);
            w == Ok(v.(tags := s.tags, branches := s.branches))
  {
    var bb := names.branchBackup;
    if n in s.branches {
      var w1 := v.(branches := v.branches[n := s.branches[n]]);
      assert GitRepo.CreateHead(v, n, s.branches[n], true, faults) == Ok(w1);
      assert GitRepo.DeleteTag(w1, bb, faults) == Ok(w1.(tags := w1.tags - {bb}));
      assert w1.tags - {bb} == s.tags;
      assert w1.branches == s.branches;
    } else {
      assert s.branches - {n} == s.branches;
    }
  }

  /** `cleanup_and_restore` brings back what the backups hold and drops them. */
  lemma CleanupOk(s: State, n: string, names: RefNames, u: State, faults: set<Op>)
    requires FreshNames(s, n, names)
    requires faults !! CleanupOps(n, names)
    requires u.tags == Displaced(s, n, names).tags
    requires u.branches == s.branches - {n} || u.branches == s.branches
    ensures CleanupAndRestore(u, n, PlannedBackups(s, n, names), faults) == Ok(u.(tags := s.tags, branches := s.branches))
  {
    assert Op.CreateTag(n) in CleanupOps(n, names) && Op.DeleteTag(names.tagBackup) in CleanupOps(n, names);
    assert Op.CreateHead(n) in CleanupOps(n, names) && Op.DeleteTag(names.branchBackup) in CleanupOps(n, names);
    var v := u.(tags := TagsAfterTagRestore(s, n, names));
    if n in s.tags {
      RestoreTagOk(s, n, names, u, faults);
    } else {
      NoTagBackup(s, n, names, u);
      assert u == v;
    }
    RestoreBranchOk(s, n, names, v, faults);
  }

  /** The names are fresh, the reference is a tag or a branch that can be
      made, none of the scope's own calls fails, and the body leaves the
      references as it found them and HEAD off branch `n`. */
  predicate CleanRun(s: State, req: RefRequest, names: RefNames, body: State -> Outcome<State>, faults: set<Op>) {
    && FreshNames(s, req.name, names)
    && (req.refType == TAG || req.refType == BRANCH)
    && SigningWorks(s, req, names)
    && faults !! RefOps(req.name, names)
    && var e := RefEntered(s, req, names);
       && body(e).state.tags == e.tags && body(e).state.branches == e.branches
       && body(e).state.head != Attached(req.name)
  }

  /** Each step of a clean run goes through, ending in the references the
      scope started from. */
  lemma CleanRunSteps(s: State, req: RefRequest, names: RefNames, body: State -> Outcome<State>, faults: set<Op>)
    ensures CleanRun(s, req, names, body, faults) ==>
              var n := req.name;
              var k := s.(tags := s.tags + BackupTags(s, n, names));
              var d := Displaced(s, n, names);
              var t := body(RefEntered(s, req, names)).state;
              && TakeBackups(s, n, names, faults) == Ok(k)
              && Displace(k, n, PlannedBackups(s, n, names), faults) == Ok(d)
              && CreateRequested(d, req, names, faults) == Ok(RefEntered(s, req, names))
              && DeleteRequested(t, req, faults) == Ok(t.(tags := d.tags, branches := d.branches))
              && CleanupAndRestore(t.(tags := d.tags, branches := d.branches), n, PlannedBackups(s, n, names), faults)
                   == Ok(t.(tags := s.tags, branches := s.branches))
  {
    if CleanRun(s, req, names, body, faults) {
      assert Op.CreateTag(names.tagBackup) in RefOps(req.name, names);
      assert Op.CreateTag(names.branchBackup) in RefOps(req.name, names);
      TakeBackupsOk(s, req.name, names, faults);
      assert {Op.DeleteTag(req.name), Op.SetHead, Op.DeleteHead(req.name)} <= RefOps(req.name, names);
      DisplaceOk(s, req.name, names, faults);
      CreateOk(s, req, names, faults);
      var t := body(RefEntered(s, req, names)).state;
      DeleteRequestedOk(s, req, names, t, faults);
      var d := Displaced(s, req.name, names);
      assert CleanupOps(req.name, names) <= RefOps(req.name, names);
      CleanupOk(s, req.name, names, t.(tags := d.tags, branches := d.branches), faults);
    }
  }

  /** After a successful creation, however the body ends: the scope ends the
      same way, with every tag and branch exactly as before the scope (the
      requested reference and the backup tags gone, a displaced tag or
      branch back at its old target).  HEAD is not reattached: it stays
      where the body left it, detached if branch `n` was displaced under it.
      The body must leave the references as it found them. */
  lemma RefScopeRestores(s: State, req: RefRequest, names: RefNames, body: State -> Outcome<State>, faults: set<Op>)
    requires FreshNames(s, req.name, names)
    requires req.refType == TAG || req.refType == BRANCH
    requires SigningWorks(s, req, names)
    requires faults !! RefOps(req.name, names)
    requires var e := RefEntered(s, req, names);
             && body(e).state.tags == e.tags && body(e).state.branches == e.branches
             && body(e).state.head != Attached(req.name)
    ensures var o := body(RefEntered(s, req, names));
            WithRefUnique(s, req, names, body, faults) == o.WithState(o.state.(tags := s.tags, branches := s.branches))
  {
    assert Op.CreateTag(names.tagBackup) in RefOps(req.name, names);
    assert Op.CreateTag(names.branchBackup) in RefOps(req.name, names);
    TakeBackupsOk(s, req.name, names, faults);
    assert {Op.DeleteTag(req.name), Op.SetHead, Op.DeleteHead(req.name)} <= RefOps(req.name, names);
    DisplaceOk(s, req.name, names, faults);
    CreateOk(s, req, names, faults);
    var t := body(RefEntered(s, req, names)).state;
    DeleteRequestedOk(s, req, names, t, faults);
    var d := Displaced(s, req.name, names);
    assert CleanupOps(req.name, names) <= RefOps(req.name, names);
    CleanupOk(s, req.name, names, t.(tags := d.tags, branches := d.branches), faults);
  }

  /** Lines 115-116 are outside any `try`: when the branch backup cannot be
      made, the tag backup already made stays behind and nothing is
      restored; the body never runs. */
  lemma BackupFailureLeaks(s: State, req: RefRequest, names: RefNames, body: State -> Outcome<State>, faults: set<Op>)
    requires FreshNames(s, req.name, names)
    requires req.name in s.tags && req.name in s.branches
    requires Op.CreateTag(names.tagBackup) !in faults && Op.CreateTag(names.branchBackup) in faults
    ensures WithRefUnique(s, req, names, body, faults)
              == Raised(s.(tags := s.tags[names.tagBackup := s.tags[req.name]]), Failed(Op.CreateTag(names.branchBackup)))
  {
  }

  /** Lines 137-139: when deleting the conflicting branch fails, the backups
      are restored and the failure re-raised; the body never runs, and HEAD
      stays detached if it was on that branch. */
  lemma DisplaceFailureRestores(s: State, req: RefRequest, names: RefNames, body: State -> Outcome<State>, faults: set<Op>)
    requires FreshNames(s, req.name, names)
    requires req.name in s.branches
    requires faults * RefOps(req.name, names) == {Op.DeleteHead(req.name)}
    ensures WithRefUnique(s, req, names, body, faults)
              == Raised(s.(head := DisplacedHead(s, req.name)), Failed(Op.DeleteHead(req.name)))
  {
    var n := req.name;
    OnlyDeleteHeadFails(faults, n, names);
    TakeBackupsOk(s, n, names, faults);
    var k := s.(tags := s.tags + BackupTags(s, n, names));
    var u := k.(tags := Displaced(s, n, names).tags, head := DisplacedHead(s, n));
    DisplaceBranchFails(s, n, names, faults);
    CleanupOk(s, n, names, u, faults);
  }

  /** With only the branch deletion faulted, every other call of the scope goes through. */
  lemma OnlyDeleteHeadFails(faults: set<Op>, n: string, names: RefNames)
    requires faults * RefOps(n, names) == {Op.DeleteHead(n)}
    ensures Op.DeleteHead(n) in faults
    ensures faults !! CleanupOps(n, names)
    ensures faults !! {Op.CreateTag(names.tagBackup), Op.CreateTag(names.branchBackup), Op.DeleteTag(n), Op.SetHead}
  {
    OnlyFault(faults, RefOps(n, names), Op.DeleteHead(n));
    assert CleanupOps(n, names) <= RefOps(n, names) - {Op.DeleteHead(n)};
    assert {Op.CreateTag(names.tagBackup), Op.CreateTag(names.branchBackup), Op.DeleteTag(n), Op.SetHead}
             <= RefOps(n, names) - {Op.DeleteHead(n)};
  }

  /** Line 136 raises: the tag is gone and HEAD is detached, the branch stays. */
  lemma DisplaceBranchFails(s: State, n: string, names: RefNames, faults: set<Op>)
    requires FreshNames(s, n, names) && n in s.branches
    requires Op.DeleteHead(n) in faults
    requires faults !! {Op.CreateTag(names.tagBackup), Op.CreateTag(names.branchBackup), Op.DeleteTag(n), Op.SetHead}
    ensures var k := s.(tags := s.tags + BackupTags(s, n, names));
            Displace(k, n, PlannedBackups(s, n, names), faults)
              == Raised(k.(tags := Displaced(s, n, names).tags, head := DisplacedHead(s, n)), Failed(Op.DeleteHead(n)))
  {
    var k := s.(tags := s.tags + BackupTags(s, n, names));
    var t := if n in s.tags then k.(tags := k.tags - {n}) else k;
    assert (if n in s.tags then GitRepo.DeleteTag(k, n, faults) else Ok(k)) == Ok(t);
    if n !in s.tags {
      assert k.tags - {n} == k.tags;
    }
    assert t.tags == Displaced(s, n, names).tags;
  }

  /** Lines 166-172 when the creation itself fails: the `finally` tries to
      delete a reference that was never made, that raises, and
      `cleanup_and_restore` is skipped.  A same-named tag or branch is then
      left deleted, its backup tags stay, and the deletion failure is what
      propagates. */
  lemma FailedCreationSkipsRestore(s: State, req: RefRequest, names: RefNames, body: State -> Outcome<State>, faults: set<Op>)
    requires FreshNames(s, req.name, names)
    requires req.refType == TAG && req.signingFormat == SIGNING_FORMAT_NONE
    requires faults * RefOps(req.name, names) == {Op.CreateTag(req.name)}
    ensures WithRefUnique(s, req, names, body, faults)
              == Raised(Displaced(s, req.name, names), Failed(Op.DeleteTag(req.name)))
  {
    var n := req.name;
    OnlyFault(faults, RefOps(n, names), Op.CreateTag(n));
    assert {Op.DeleteTag(n), Op.SetHead, Op.DeleteHead(n)} <= RefOps(n, names) - {Op.CreateTag(n)};
    assert Op.CreateTag(names.tagBackup) in RefOps(n, names) - {Op.CreateTag(n)};
    assert Op.CreateTag(names.branchBackup) in RefOps(n, names) - {Op.CreateTag(n)};
    TakeBackupsOk(s, n, names, faults);
    DisplaceOk(s, n, names, faults);
  }

  /** Lines 160-163 and 166-172 with a reference type that is neither a tag
      nor a branch: the conflicting references have already been displaced
      when the creation raises, the `finally` deletes nothing and restores
      them, and the error propagates.  HEAD is not reattached. */
  lemma UnknownRefTypeRaises(s: State, req: RefRequest, names: RefNames, body: State -> Outcome<State>, faults: set<Op>)
    requires FreshNames(s, req.name, names)
    requires req.refType != TAG && req.refType != BRANCH
    requires faults !! RefOps(req.name, names)
    ensures WithRefUnique(s, req, names, body, faults)
              == Raised(s.(head := DisplacedHead(s, req.name)), UnexpectedRefType(req.refType))
  {
    var n := req.name;
    assert Op.CreateTag(names.tagBackup) in RefOps(n, names);
    assert Op.CreateTag(names.branchBackup) in RefOps(n, names);
    assert {Op.DeleteTag(n), Op.SetHead, Op.DeleteHead(n)} <= RefOps(n, names);
    TakeBackupsOk(s, n, names, faults);
    DisplaceOk(s, n, names, faults);
    assert CleanupOps(n, names) <= RefOps(n, names);
    CleanupOk(s, n, names, Displaced(s, n, names), faults);
  }
}
