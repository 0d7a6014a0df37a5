/** The git configuration store and the three phases of `git_config`
(lib/common.py:12-54): take a snapshot of what an override touches, apply the
override, restore the snapshot.

The store is keyed by (scope, section): a scope such as "repository" or
"global" holds named sections, a section holds options, and an option holds
an ordered, non-empty list of values (git options may repeat).  Keying
sections by the pair rather than nesting a scope map means an emptied scope
is indistinguishable from one that never existed, as it is for git. */
module GitConfig {
  import opened Outcomes

  datatype SectionId = SectionId(scope: string, name: string)

  /** An option that exists has at least one value. */
  type Values = s: seq<string> | |s| > 0 witness [""]
  type Options = map<string, Values>
  type Config = map<SectionId, Options>

  /** One `scope -> section -> option -> value` leaf of a Python override dict. */
  datatype Setting = Setting(section: SectionId, option: string, value: string)

  /** A Python override dict, flattened in its iteration order. */
  type Override = seq<Setting>

  /** What the snapshot keeps: for each touched section that exists, the
      touched options that exist, with all their values. */
  type Backup = map<SectionId, Options>

  function Key(s: Setting): (SectionId, string) {
    (s.section, s.option)
  }

  /** The (section, option) pairs an override touches. */
  function Keys(ov: Override): set<(SectionId, string)> {
    if ov == [] then {} else {Key(ov[0])} + Keys(ov[1..])
  }

  lemma {:induction false} KeysAppend(a: Override, b: Override)
    ensures Keys(a + b) == Keys(a) + Keys(b)
    decreases |a|
  {
    if a == [] {
      assert a + b == b;
    } else {
      assert (a + b)[1..] == a[1..] + b;
      KeysAppend(a[1..], b);
    }
  }

  /** Two dicts without a common key merge into one. */
  lemma {:induction false} WellFormedAppend(a: Override, b: Override)
    requires WellFormed(a) && WellFormed(b) && Keys(a) !! Keys(b)
    ensures WellFormed(a + b)
    decreases |a|
  {
    if a == [] {
      assert a + b == b;
    } else {
      assert (a + b)[1..] == a[1..] + b;
      KeysAppend(a[1..], b);
      WellFormedAppend(a[1..], b);
    }
  }

  /** The sections an override touches. */
  function Sections(ov: Override): set<SectionId> {
    if ov == [] then {} else {ov[0].section} + Sections(ov[1..])
  }

  function OptionsOf(ov: Override, sid: SectionId): set<string> {
    set k | k in Keys(ov) && k.0 == sid :: k.1
  }

  /** A dict cannot name the same (scope, section, option) twice. */
  predicate WellFormed(ov: Override) {
    ov == [] || (Key(ov[0]) !in Keys(ov[1..]) && WellFormed(ov[1..]))
  }

  predicate Has(cfg: Config, sid: SectionId) {
    sid in cfg
  }

  function Val(cfg: Config, sid: SectionId, opt: string): Option<Values> {
    if sid in cfg && opt in cfg[sid] then Some(cfg[sid][opt]) else None
  }

  function Get(opts: Options, opt: string): Option<Values> {
    if opt in opts then Some(opts[opt]) else None
  }

  /** `after` differs from `before` at most in the options `ov` touches and
      in the sections `ov` touches that did not exist in `before`; a touched
      section that existed still exists. */
  ghost predicate AgreesOutside(before: Config, after: Config, ov: Override) {
    && (forall sid :: sid !in Sections(ov) ==> (Has(after, sid) <==> Has(before, sid)))
    && (forall sid :: sid in Sections(ov) && Has(before, sid) ==> Has(after, sid))
    && (forall sid, opt :: (sid, opt) !in Keys(ov) && (sid !in Sections(ov) || Has(before, sid)) ==>
          Val(after, sid, opt) == Val(before, sid, opt))
  }

  lemma KeysHaveSections(ov: Override, sid: SectionId, opt: string)
    requires (sid, opt) in Keys(ov)
    ensures sid in Sections(ov)
  {
    if Key(ov[0]) != (sid, opt) {
      KeysHaveSections(ov[1..], sid, opt);
    }
  }

  /** Two stores that agree section by section and option by option are equal. */
  lemma Extensionality(c1: Config, c2: Config)
    requires forall sid :: Has(c1, sid) <==> Has(c2, sid)
    requires forall sid, opt :: Val(c1, sid, opt) == Val(c2, sid, opt)
    ensures c1 == c2
  {
    forall sid ensures sid in c1 <==> sid in c2 {
      assert Has(c1, sid) <==> Has(c2, sid);
    }
    forall sid | sid in c1
      ensures c1[sid] == c2[sid]
    {
      forall opt ensures (opt in c1[sid] <==> opt in c2[sid]) && (opt in c1[sid] ==> c1[sid][opt] == c2[sid][opt]) {
        assert Val(c1, sid, opt) == Val(c2, sid, opt);
      }
    }
  }

  // ---------------------------------------------------------------------
  // Backup (lib/common.py:14-30)

  /** The backup loop: a touched section is recorded iff it exists, and inside
      it a touched option is recorded iff it exists, with all its values. */
  function Snapshot(cfg: Config, ov: Override): (b: Backup)
    ensures forall sid :: sid in b <==> sid in Sections(ov) && Has(cfg, sid)
    ensures forall sid, opt :: sid in b && (sid, opt) in Keys(ov) ==> Get(b[sid], opt) == Val(cfg, sid, opt)
    ensures forall sid :: sid in b ==> b[sid].Keys <= OptionsOf(ov, sid)
  {
    map sid | sid in Sections(ov) && sid in cfg ::
      map opt | opt in OptionsOf(ov, sid) && opt in cfg[sid] :: cfg[sid][opt]
  }

  // ---------------------------------------------------------------------
  // Apply (lib/common.py:32-38)

  /** `writer.set_value`: creates the section if needed and replaces every
      value of the option by the single new one. */
  function SetValue(cfg: Config, s: Setting): (r: Config)
    ensures forall sid :: Has(r, sid) <==> Has(cfg, sid) || sid == s.section
    ensures forall sid, opt :: Val(r, sid, opt) == if (sid, opt) == Key(s) then Some([s.value]) else Val(cfg, sid, opt)
  {
    var opts := if s.section in cfg then cfg[s.section] else map[];
    cfg[s.section := opts[s.option := [s.value]]]
  }

  function SetValueOp(s: Setting): Op {
    Outcomes.SetValue(s.section.scope, s.section.name, s.option)
  }

  /** Writes the settings in order; the first failing write raises and the
      writes before it stay in place. */
  function Apply(cfg: Config, ov: Override, faults: set<Op>): Outcome<Config>
    decreases |ov|
  {
    if ov == [] then Ok(cfg)
    else if SetValueOp(ov[0]) in faults then Raised(cfg, Failed(SetValueOp(ov[0])))
    else Apply(SetValue(cfg, ov[0]), ov[1..], faults)
  }

  /** No write of the override is faulted. */
  predicate ApplyCanSucceed(ov: Override, faults: set<Op>) {
    ov == [] || (SetValueOp(ov[0]) !in faults && ApplyCanSucceed(ov[1..], faults))
  }

  /** Applying succeeds iff no write fails.  Whether it succeeds or stops
      partway, nothing outside the touched options changes and no existing
      section disappears. */
  lemma {:induction false} ApplyOutcome(cfg: Config, ov: Override, faults: set<Op>)
    ensures Apply(cfg, ov, faults).Ok? <==> ApplyCanSucceed(ov, faults)
    ensures AgreesOutside(cfg, Apply(cfg, ov, faults).state, ov)
    decreases |ov|
  {
    if ov != [] && SetValueOp(ov[0]) !in faults {
      ApplyOutcome(SetValue(cfg, ov[0]), ov[1..], faults);
    }
  }

  /** After a successful apply every touched option holds exactly its new value. */
  lemma {:induction false} ApplyWrites(cfg: Config, ov: Override, faults: set<Op>)
    requires WellFormed(ov)
    requires Apply(cfg, ov, faults).Ok?
    ensures forall i :: 0 <= i < |ov| ==>
              Val(Apply(cfg, ov, faults).state, ov[i].section, ov[i].option) == Some([ov[i].value])
    decreases |ov|
  {
    if ov != [] {
      var c1 := SetValue(cfg, ov[0]);
      var r := Apply(c1, ov[1..], faults);
      ApplyWrites(c1, ov[1..], faults);
      ApplyOutcome(c1, ov[1..], faults);
      forall i | 0 <= i < |ov|
        ensures Val(r.state, ov[i].section, ov[i].option) == Some([ov[i].value])
      {
        if i > 0 {
          assert ov[i] == ov[1..][i - 1];
        }
      }
    }
  }

  // ---------------------------------------------------------------------
  // Restore (lib/common.py:40-54)

  /** `writer.remove_option`: raises if the section is gone (configparser's
      NoSectionError) and does nothing for an absent option. */
  function RemoveOption(cfg: Config, sid: SectionId, opt: string, faults: set<Op>): Outcome<Config> {
    var op := Outcomes.RemoveOption(sid.scope, sid.name, opt);
    if sid !in cfg || op in faults then Raised(cfg, Failed(op))
    else Ok(cfg[sid := cfg[sid] - {opt}])
  }

  /** The `add_value` loop over the saved values: appends them in order,
      creating the section if needed.  A faulted call fails on the first value. */
  function AddValues(cfg: Config, sid: SectionId, opt: string, values: Values, faults: set<Op>): Outcome<Config> {
    var op := Outcomes.AddValue(sid.scope, sid.name, opt);
    if op in faults then Raised(cfg, Failed(op))
    else
      var opts := if sid in cfg then cfg[sid] else map[];
      var prior := if opt in opts then opts[opt] else [];
      Ok(cfg[sid := opts[opt := prior + values]])
  }

  /** `writer.remove_section`: does nothing for an absent section. */
  function RemoveSection(cfg: Config, sid: SectionId, faults: set<Op>): Outcome<Config> {
    var op := Outcomes.RemoveSection(sid.scope, sid.name);
    if op in faults then Raised(cfg, Failed(op)) else Ok(cfg - {sid})
  }

  /** Restoring one touched option: in a backed-up section the option is
      removed and its saved values re-added; any other section is removed. */
  function RestoreOne(cfg: Config, s: Setting, b: Backup, faults: set<Op>): Outcome<Config> {
    if s.section in b then
      var c := RemoveOption(cfg, s.section, s.option, faults);
      if c.Raised? then c
      else if s.option in b[s.section] then AddValues(c.state, s.section, s.option, b[s.section][s.option], faults)
      else c
    else RemoveSection(cfg, s.section, faults)
  }

  /** The restore loop, in the order of the override. */
  function Restore(cfg: Config, ov: Override, b: Backup, faults: set<Op>): Outcome<Config>
    decreases |ov|
  {
    if ov == [] then Ok(cfg)
    else
      var one := RestoreOne(cfg, ov[0], b, faults);
      if one.Raised? then one
      else Restore(one.state, ov[1..], b, faults)
  }

  /** The calls restoring one option succeed in `cfg`. */
  predicate OneCanSucceed(cfg: Config, s: Setting, b: Backup, faults: set<Op>) {
    var sid := s.section;
    if sid in b then
      && Has(cfg, sid)
      && Outcomes.RemoveOption(sid.scope, sid.name, s.option) !in faults
      && (s.option in b[sid] ==> Outcomes.AddValue(sid.scope, sid.name, s.option) !in faults)
    else Outcomes.RemoveSection(sid.scope, sid.name) !in faults
  }

  /** The calls restoring every option of `ov` succeed, judged against the
      store as it is before the restore starts. */
  predicate RestoreCanSucceed(cfg: Config, ov: Override, b: Backup, faults: set<Op>) {
    ov == [] || (OneCanSucceed(cfg, ov[0], b, faults) && RestoreCanSucceed(cfg, ov[1..], b, faults))
  }

  /** What a finished restore leaves: untouched sections as they were;
      touched sections exist iff they were backed up; in a backed-up section
      every touched option holds exactly its saved values (or is absent if
      none were saved) and every other option is left as it was. */
  ghost predicate RestoredFrom(cfg: Config, r: Config, ov: Override, b: Backup) {
    && (forall sid :: sid !in Sections(ov) ==> (Has(r, sid) <==> Has(cfg, sid)))
    && (forall sid :: sid in Sections(ov) ==> (Has(r, sid) <==> sid in b))
    && (forall sid, opt :: (sid, opt) in Keys(ov) && sid in b ==> Val(r, sid, opt) == Get(b[sid], opt))
    && (forall sid, opt :: (sid, opt) !in Keys(ov) && (sid !in Sections(ov) || sid in b) ==>
          Val(r, sid, opt) == Val(cfg, sid, opt))
  }

  lemma RestoreOneEffect(cfg: Config, s: Setting, b: Backup, faults: set<Op>)
    ensures RestoreOne(cfg, s, b, faults).Ok? <==> OneCanSucceed(cfg, s, b, faults)
    ensures RestoreOne(cfg, s, b, faults).Ok? ==>
      var r := RestoreOne(cfg, s, b, faults).state;
      && (forall sid :: sid != s.section ==> (Has(r, sid) <==> Has(cfg, sid)))
      && (Has(r, s.section) <==> s.section in b)
      && (forall sid, opt :: (sid, opt) != Key(s) && (sid != s.section || s.section in b) ==>
            Val(r, sid, opt) == Val(cfg, sid, opt))
      && (s.section in b ==> Val(r, s.section, s.option) == Get(b[s.section], s.option))
  {
    var sid := s.section;
    if sid in b && OneCanSucceed(cfg, s, b, faults) {
      var c := RemoveOption(cfg, sid, s.option, faults).state;
      assert s.option !in c[sid];
      if s.option in b[sid] {
        var vals := b[sid][s.option];
        assert AddValues(c, sid, s.option, vals, faults).state == c[sid := c[sid][s.option := [] + vals]];
        assert [] + vals == vals;
      }
    }
  }

  lemma {:induction false} CanSucceedDependsOnBackedUpSections(c1: Config, c2: Config, ov: Override, b: Backup, faults: set<Op>)
    requires forall sid :: sid in b ==> (Has(c1, sid) <==> Has(c2, sid))
    ensures RestoreCanSucceed(c1, ov, b, faults) <==> RestoreCanSucceed(c2, ov, b, faults)
    decreases |ov|
  {
    if ov != [] {
      CanSucceedDependsOnBackedUpSections(c1, c2, ov[1..], b, faults);
    }
  }

  /** Restoring succeeds iff every restore call succeeds, and then it leaves
      the store as `RestoredFrom` describes. */
  lemma {:induction false} RestoreOutcome(cfg: Config, ov: Override, b: Backup, faults: set<Op>)
    requires WellFormed(ov)
    ensures Restore(cfg, ov, b, faults).Ok? <==> RestoreCanSucceed(cfg, ov, b, faults)
    ensures Restore(cfg, ov, b, faults).Ok? ==> RestoredFrom(cfg, Restore(cfg, ov, b, faults).state, ov, b)
    decreases |ov|
  {
    if ov != [] {
      var s := ov[0];
      var one := RestoreOne(cfg, s, b, faults);
      RestoreOneEffect(cfg, s, b, faults);
      if one.Ok? {
        var c1 := one.state;
        RestoreOutcome(c1, ov[1..], b, faults);
        CanSucceedDependsOnBackedUpSections(cfg, c1, ov[1..], b, faults);
        var r := Restore(c1, ov[1..], b, faults);
        if r.Ok? {
          var rs := r.state;
          forall sid | sid !in Sections(ov) ensures Has(rs, sid) <==> Has(cfg, sid) {
            assert sid !in Sections(ov[1..]) && sid != s.section;
          }
          forall sid | sid in Sections(ov) ensures Has(rs, sid) <==> sid in b {
            if sid !in Sections(ov[1..]) {
              assert sid == s.section;
            }
          }
          forall sid, opt | (sid, opt) in Keys(ov) && sid in b
            ensures Val(rs, sid, opt) == Get(b[sid], opt)
          {
            if (sid, opt) !in Keys(ov[1..]) {
              assert (sid, opt) == Key(s);
            }
          }
          forall sid, opt | (sid, opt) !in Keys(ov) && (sid !in Sections(ov) || sid in b)
            ensures Val(rs, sid, opt) == Val(cfg, sid, opt)
          {
          }
        }
      }
    }
  }

  // ---------------------------------------------------------------------
  // Round trip

  /** The writes applying an override makes. */
  function SetOps(ov: Override): set<Op> {
    if ov == [] then {} else {SetValueOp(ov[0])} + SetOps(ov[1..])
  }

  /** The calls restoring an override can make. */
  function RestoreOps(ov: Override): set<Op> {
    if ov == [] then {}
    else
      var sid := ov[0].section;
      var opt := ov[0].option;
      {Outcomes.RemoveOption(sid.scope, sid.name, opt), Outcomes.AddValue(sid.scope, sid.name, opt),
       Outcomes.RemoveSection(sid.scope, sid.name)}
      + RestoreOps(ov[1..])
  }

  /** Every call the override leads to, during apply or restore. */
  function ConfigOps(ov: Override): set<Op> {
    SetOps(ov) + RestoreOps(ov)
  }

  lemma {:induction false} FaultFreeRestoreSucceeds(cfg: Config, ov: Override, b: Backup, faults: set<Op>)
    requires faults !! RestoreOps(ov)
    requires forall sid :: sid in b && sid in Sections(ov) ==> Has(cfg, sid)
    ensures RestoreCanSucceed(cfg, ov, b, faults)
    decreases |ov|
  {
    if ov != [] {
      FaultFreeRestoreSucceeds(cfg, ov[1..], b, faults);
    }
  }

  lemma {:induction false} FaultFreeApplySucceeds(ov: Override, faults: set<Op>)
    requires faults !! SetOps(ov)
    ensures ApplyCanSucceed(ov, faults)
    decreases |ov|
  {
    if ov != [] {
      FaultFreeApplySucceeds(ov[1..], faults);
    }
  }

  /** The round trip of `git_config`: whatever happened to the touched
      options in between (a complete apply, an apply that stopped partway, a
      body that rewrote them), restoring the snapshot taken of `before`
      gives back `before` exactly: saved options get their saved values in
      their saved order, options that were absent are absent again, sections
      that did not exist are gone, and nothing else was altered. */
  lemma RestoreUndoes(before: Config, cur: Config, ov: Override, faults: set<Op>)
    requires WellFormed(ov)
    requires faults !! RestoreOps(ov)
    requires AgreesOutside(before, cur, ov)
    ensures Restore(cur, ov, Snapshot(before, ov), faults) == Ok(before)
  {
    var b := Snapshot(before, ov);
    FaultFreeRestoreSucceeds(cur, ov, b, faults);
    RestoreOutcome(cur, ov, b, faults);
    var r := Restore(cur, ov, b, faults).state;
    forall sid ensures Has(r, sid) <==> Has(before, sid) {
    }
    forall sid, opt ensures Val(r, sid, opt) == Val(before, sid, opt) {
      if (sid, opt) in Keys(ov) {
        KeysHaveSections(ov, sid, opt);
      }
    }
    Extensionality(r, before);
  }

  /** Apply followed directly by restore is the identity. */
  lemma ApplyThenRestore(cfg: Config, ov: Override, faults: set<Op>)
    requires WellFormed(ov)
    requires faults !! ConfigOps(ov)
    ensures Apply(cfg, ov, faults).Ok?
    ensures Restore(Apply(cfg, ov, faults).state, ov, Snapshot(cfg, ov), faults) == Ok(cfg)
  {
    FaultFreeApplySucceeds(ov, faults);
    ApplyOutcome(cfg, ov, faults);
    RestoreUndoes(cfg, Apply(cfg, ov, faults).state, ov, faults);
  }

  /** Only configuration calls are made on behalf of an override. */
  lemma {:induction false} ConfigOpsAreConfigCalls(ov: Override, op: Op)
    requires op in ConfigOps(ov)
    ensures op.SetValue? || op.RemoveOption? || op.AddValue? || op.RemoveSection?
    decreases |ov|
  {
    var sid := ov[0].section;
    var opt := ov[0].option;
    var first := {SetValueOp(ov[0]), Outcomes.RemoveOption(sid.scope, sid.name, opt),
                  Outcomes.AddValue(sid.scope, sid.name, opt), Outcomes.RemoveSection(sid.scope, sid.name)};
    assert ConfigOps(ov) == first + ConfigOps(ov[1..]);
    if op !in first {
      ConfigOpsAreConfigCalls(ov[1..], op);
    }
  }
}

