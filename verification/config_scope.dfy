/** `git_config(repo, config)` (lib/common.py:12-54) as a scope around a body:
snapshot, then (inside `try`) apply and run the body, then (in `finally`)
restore. */
module ConfigScope {
  import opened Outcomes
  import opened GitConfig
  import opened GitRepo

  /** The state the body starts from: the override applied. */
  function Entered(s: State, ov: Override, faults: set<Op>): State {
    s.(config := Apply(s.config, ov, faults).state)
  }

  /** Whether or not every write of the override goes through, as long as
      the restore calls do and the body (if it runs) changes configuration
      only in the options the override touches, the configuration after the
      scope is exactly the one before it. */
  function WithConfig(s: State, ov: Override, body: State -> Outcome<State>, faults: set<Op>): (r: Outcome<State>)
    ensures WellFormed(ov) && faults !! RestoreOps(ov) &&
            (ApplyCanSucceed(ov, faults) ==> AgreesOutside(s.config, body(Entered(s, ov, faults)).state.config, ov))
            ==> r.state.config == s.config
  {
    var backup := Snapshot(s.config, ov);
    var a := Apply(s.config, ov, faults);
    var e := Entered(s, ov, faults);
    var run := if a.Ok? then body(e) else Raised(e, a.error);
    ApplyOutcome(s.config, ov, faults);
    RestoreUndoesWhenClean(s.config, run.state.config, ov, faults);
    run.Finally((t: State) => WithConfigOf(t, Restore(t.config, ov, backup, faults)))
  }

  /** `RestoreUndoes` with its preconditions as a hypothesis. */
  lemma RestoreUndoesWhenClean(before: Config, cur: Config, ov: Override, faults: set<Op>)
    ensures WellFormed(ov) && faults !! RestoreOps(ov) && AgreesOutside(before, cur, ov) ==>
            Restore(cur, ov, Snapshot(before, ov), faults) == Ok(before)
  {
    if WellFormed(ov) && faults !! RestoreOps(ov) && AgreesOutside(before, cur, ov) {
      RestoreUndoes(before, cur, ov, faults);
    }
  }

  /** Whatever way the body ends, as long as it changed configuration only
      in the options the override touches, the scope ends the same way with
      the configuration exactly as before; the rest of the state is what the
      body left.  The body sees every overridden option with its new value. */
  lemma ConfigScopeRestores(s: State, ov: Override, body: State -> Outcome<State>, faults: set<Op>)
    requires WellFormed(ov)
    requires faults !! ConfigOps(ov)
    requires AgreesOutside(s.config, body(Entered(s, ov, faults)).state.config, ov)
    ensures forall i :: 0 <= i < |ov| ==>
              Val(Entered(s, ov, faults).config, ov[i].section, ov[i].option) == Some([ov[i].value])
    ensures var o := body(Entered(s, ov, faults));
            WithConfig(s, ov, body, faults) == o.WithState(o.state.(config := s.config))
  {
    FaultFreeApplySucceeds(ov, faults);
    ApplyOutcome(s.config, ov, faults);
    ApplyWrites(s.config, ov, faults);
    var o := body(Entered(s, ov, faults));
    RestoreUndoes(s.config, o.state.config, ov, faults);
  }

  /** When a write of the override fails, the body never runs, the writes
      already made are undone, and the failure propagates from the state the
      scope started in. */
  lemma ApplyFailureRestores(s: State, ov: Override, body: State -> Outcome<State>, faults: set<Op>)
    requires WellFormed(ov)
    requires faults !! RestoreOps(ov)
    requires !ApplyCanSucceed(ov, faults)
    ensures Apply(s.config, ov, faults).Raised?
    ensures WithConfig(s, ov, body, faults) == Raised(s, Apply(s.config, ov, faults).error)
  {
    ApplyOutcome(s.config, ov, faults);
    var a := Apply(s.config, ov, faults);
    RestoreUndoes(s.config, a.state, ov, faults);
  }
}
