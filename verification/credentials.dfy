/** The credential plumbing shared by `g-push-rev` and `g-delete-ref`
(lib/cmd/g-push-rev.py:121-145, lib/cmd/g-delete-ref.py:60-84): which
environment variable carries the password, the credential-helper command
that reads it, and the configuration override that installs the helper. */
module Credentials {
  import opened Outcomes
  import opened GitConfig

  /** The variable the caller is expected to have set when no password is given. */
  const DefaultPasswordVariable: string := "GCHL_PASSWORD"

  predicate IsLowerLetter(c: char) {
    'a' <= c <= 'z'
  }

  predicate IsHexDigit(c: char) {
    '0' <= c <= '9' || 'a' <= c <= 'f'
  }

  /** What `uuid.uuid4().hex` returns: 32 lower-case hexadecimal digits. */
  predicate IsUuidHex(h: string) {
    |h| == 32 && forall i :: 0 <= i < |h| ==> IsHexDigit(h[i])
  }

  /** The password variable: the default name without a password; with one,
      a fresh name made of a random lower-case letter (`letter`, standing for
      `random.choice(string.ascii_lowercase)`) followed by all but the first
      digit of a random UUID (`uuidHex`). */
  function PasswordVariable(password: Option<string>, letter: char, uuidHex: string): (v: string)
    requires IsLowerLetter(letter) && IsUuidHex(uuidHex)
    ensures password.None? ==> v == DefaultPasswordVariable
    ensures password.Some? ==>
      && |v| == 32
      && IsLowerLetter(v[0])
      && v[1..] == uuidHex[1..]
      && (forall i :: 1 <= i < |v| ==> IsHexDigit(v[i]))
    ensures password.Some? ==> v != DefaultPasswordVariable
  {
    if password.None? then DefaultPasswordVariable
    else
      var v := [letter] + uuidHex[1..];
      assert v[0] != DefaultPasswordVariable[0];
      v
  }

  // The helper is the shell function
  //   "!f() { test \"${1}\" = get && echo \"password=${<variable>}\"; }; f"
  // (quotes included), which answers git's `get` request with the value of
  // the variable.
  const HelperPrefix: string := "\"!f() { test \\\"${1}\\\" = get && echo \\\"password=${"
  const HelperSuffix: string := "}\\\"; }; f\""

  function HelperCommand(variable: string): string {
    HelperPrefix + variable + HelperSuffix
  }

  /** The variable a helper command reads, as git's credential machinery
      sees it when it runs the helper. */
  function HelperVariable(helper: string): Option<string> {
    if |helper| >= |HelperPrefix| + |HelperSuffix|
       && helper[..|HelperPrefix|] == HelperPrefix
       && helper[|helper| - |HelperSuffix|..] == HelperSuffix
    then Some(helper[|HelperPrefix|..|helper| - |HelperSuffix|])
    else None
  }

  /** The helper built for a variable reads exactly that variable. */
  lemma HelperNamesItsVariable(variable: string)
    ensures HelperVariable(HelperCommand(variable)) == Some(variable)
  {
    var h := HelperCommand(variable);
    assert h[..|HelperPrefix|] == HelperPrefix;
    assert h[|h| - |HelperSuffix|..] == HelperSuffix;
    assert h[|HelperPrefix|..|h| - |HelperSuffix|] == variable;
  }

  /** The section `credential "<url>"` of the repository scope. */
  function CredentialSection(url: string): SectionId {
    SectionId("repository", "credential \"" + url + "\"")
  }

  /** The override both commands start from: the user name and the helper
      for the remote URL, in this order. */
  function CredentialConfig(url: string, username: string, variable: string): (ov: Override)
    ensures WellFormed(ov)
    ensures forall i :: 0 <= i < |ov| ==> ov[i].section == CredentialSection(url)
    ensures exists i, j :: 0 <= i < |ov| && 0 <= j < |ov| &&
              ov[i].option == "username" && ov[i].value == username &&
              ov[j].option == "helper" && HelperVariable(ov[j].value) == Some(variable)
  {
    HelperNamesItsVariable(variable);
    var ov := [Setting(CredentialSection(url), "username", username),
               Setting(CredentialSection(url), "helper", HelperCommand(variable))];
    assert ov[1].option == "helper";
    assert ov[1..][1..] == [];
    assert Keys(ov[1..]) == {Key(ov[1])};
    assert ov[0].option[0] != ov[1].option[0];
    assert WellFormed(ov[1..]);
    ov
  }

  /** The password the helper hands to git: the one given (it sits in the
      helper's fresh variable), or else whatever `GCHL_PASSWORD` holds in
      the environment `env` the command started with. */
  function HelperPassword(password: Option<string>, env: map<string, string>): Option<string> {
    if password.Some? then password
    else if DefaultPasswordVariable in env then Some(env[DefaultPasswordVariable])
    else None
  }
}
