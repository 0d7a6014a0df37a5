/** `git_keep_head(repo)` (lib/common.py:85-99): stash a dirty work area,
remember HEAD (the branch it is attached to, or the commit it is detached
at), run the body, then put HEAD back and pop the stash if one was pushed. */
module HeadScope {
  import opened Outcomes
  import opened GitRepo

  /** The state the body starts from: the work area stashed if it needed it. */
  function HeadEntered(s: State): State {
    if NeedsStash(s) then
      match HeadTree(s)
      case Some(t) => s.(work := WorkArea(t, t, {}), stash := [s.work] + s.stash)
      case None => s
    else s
  }

  /** The `finally` part: HEAD back to `backup`, then the pop when a push was made. */
  function LeaveHead(t: State, backup: Head, doStash: bool, faults: set<Op>): Outcome<State> {
    GitRepo.SetHead(t, backup, faults).Then((u: State) => if doStash then GitRepo.StashPop(u, faults) else Ok(u))
  }

  function WithHeadKept(s: State, body: State -> Outcome<State>, faults: set<Op>): (r: Outcome<State>)
    ensures NeedsStash(s) && (HeadTree(s).None? || Op.StashPush in faults) ==>
              r == Raised(s, Failed(Op.StashPush))
    ensures (!NeedsStash(s) || (HeadTree(s).Some? && Op.StashPush !in faults)) && Op.SetHead !in faults ==>
              r.state.head == s.head
  {
    var doStash := NeedsStash(s);
    var p := if doStash then GitRepo.StashPush(s, faults) else Ok(s);
    if p.Raised? then p
    else
      var backup := s.head;
      body(p.state).Finally((t: State) => LeaveHead(t, backup, doStash, faults))
  }

  /** The body always runs on a clean work area at the same HEAD: the stash
      is pushed exactly when the work area was dirty or had untracked files. */
  lemma BodyRunsClean(s: State)
    requires NeedsStash(s) ==> HeadTree(s).Some?
    ensures !NeedsStash(HeadEntered(s))
    ensures HeadEntered(s).head == s.head
    ensures NeedsStash(s) <==> HeadEntered(s).stash == [s.work] + s.stash
    ensures !NeedsStash(s) ==> HeadEntered(s) == s
  {
    if NeedsStash(s) {
      assert |HeadEntered(s).stash| == |s.stash| + 1;
    }
  }

  /** The calls the scope makes. */
  const HeadOps: set<Op> := {Op.SetHead, Op.StashPush, Op.StashPop}

  /** If the body leaves the work area and the stash as it found them, then
      whatever way it ends the scope ends the same way, with HEAD exactly as
      captured on entry (attached to the same branch name, or detached at the
      same commit) and the work area and stash as they were before the scope.
      Everything else is what the body left. */
  lemma HeadScopeRestores(s: State, body: State -> Outcome<State>, faults: set<Op>)
    requires faults !! HeadOps
    requires NeedsStash(s) ==> HeadTree(s).Some?
    requires var e := HeadEntered(s); body(e).state.work == e.work && body(e).state.stash == e.stash
    ensures var o := body(HeadEntered(s));
            WithHeadKept(s, body, faults) == o.WithState(o.state.(head := s.head, work := s.work, stash := s.stash))
  {
    var e := HeadEntered(s);
    var o := body(e);
    var doStash := NeedsStash(s);
    if doStash {
      assert GitRepo.StashPush(s, faults) == Ok(e);
      var u := o.state.(head := s.head);
      assert LeaveHead(o.state, s.head, true, faults) == GitRepo.StashPop(u, faults);
      assert u.stash[1..] == s.stash;
    } else {
      assert LeaveHead(o.state, s.head, false, faults) == Ok(o.state.(head := s.head));
    }
  }
}
