/**
 The vars of wrangler.jsonc during a deployment: those that would clash with a secret are
 taken out before the deploy and put back afterwards, by the deployment's last step or by the
 signal handler.  A run is any sequence of events; one that is not enabled changes nothing.
 */
module DeployVars {
  import opened Options
  import opened Text

  type Vars = map<string, string>

  // ---- The operations ----

  /** The name that one line of .prod.vars defines, if it defines one. */
  function SecretName(line: string): Option<string> {
    var l := Trim(line);
    if l == "" || l[0] == '#' || '=' !in l then None else Some(Trim(Split(l, '=')[0]))
  }

  /** A line `name=value` defines the trimmed name, whatever blanks surround it; a comment and a line without
      an equals sign define nothing. */
  lemma SecretNameIs(name: string, value: string, line: string)
    requires name != "" && '=' !in name && !IsSpace(name[0]) && name[0] != '#'
    requires value != "" && !IsSpace(value[|value| - 1])
    ensures SecretName(name + "=" + value) == Some(Trim(name))
    ensures '=' !in line ==> SecretName(line) == None
    ensures line != "" && line[0] == '#' ==> SecretName(line) == None
  {
    var l := name + "=" + value;
    assert l == name + ['='] + value && l[0] == name[0] && l[|l| - 1] == value[|value| - 1] && l[|name|] == '=';
    SplitFirst(name, '=', value);
    var a, b := TrimIs(line);
    assert forall x :: x in Trim(line) ==> x in line;
    if line != "" && line[0] == '#' {
      TrimEndBlank(line);
    }
  }

  function NamesIn(lines: seq<string>): set<string> {
    if lines == [] then {}
    else NamesIn(lines[..|lines| - 1]) + match SecretName(lines[|lines| - 1]) case Some(n) => {n} case None => {}
  }

  /** A name is a secret exactly when some line defines it. */
  lemma {:induction false} NamesAre(lines: seq<string>, name: string)
    ensures name in NamesIn(lines) <==> exists i :: 0 <= i < |lines| && SecretName(lines[i]) == Some(name)
  {
    if lines != [] {
      var before := lines[..|lines| - 1];
      NamesAre(before, name);
      assert forall i :: 0 <= i < |before| ==> before[i] == lines[i];
    }
  }

  /** The secrets that .prod.vars will upload. */
  function SecretNames(content: string): set<string> {
    NamesIn(Split(content, '\n'))
  }

  /** The vars that clash with a secret, with their original values. */
  function Conflicts(original: Vars, secrets: set<string>): Vars {
    map name | name in original && name in secrets :: original[name]
  }

  /** removeConflictingVars: what it returns; null without .prod.vars, without a clash, or when
      the configuration cannot be rewritten. */
  function Removed(original: Vars, prodVars: Option<string>, writeOk: bool): Option<Vars> {
    if prodVars.None? then None
    else
      var c := Conflicts(original, SecretNames(prodVars.value));
      if c == map[] || !writeOk then None else Some(c)
  }

  /** restoreOriginalVars: the removed vars are merged over what the file holds. */
  function Restored(fileVars: Vars, removed: Option<Vars>, writeOk: bool): Vars {
    if removed.Some? && writeOk then fileVars + removed.value else fileVars
  }

  // ---- The deployment and the signal handler ----

  datatype Stage = Configuring | SettingUp | Deploying | UpdatingSecrets | Restoring | Clearing | Finished | Exited

  datatype State = State(
    fileVars: Vars,               // the vars in wrangler.jsonc
    prodVars: Option<string>,     // .prod.vars
    removed: Option<Vars>,        // what this deployment took out
    forCleanup: Option<Vars>,     // conflictingVarsForCleanup
    stage: Stage,
    succeeded: bool,              // deploymentSucceeded
    setupFailed: bool,
    deployedWith: Option<Vars>)   // the vars in the file when `wrangler deploy` ran

  datatype Event =
    | ConfigurationFails
    | Resolve(writeOk: bool)
    | Setup(ok: bool)
    | Deploy(ok: bool)
    | UpdateSecrets(created: Option<string>)
    | Restore(writeOk: bool)
    | Clear
    | Signal(writeOk: bool)

  function Init(original: Vars, prodVars: Option<string>): State {
    State(original, prodVars, None, None, Configuring, false, false, None)
  }

  function Step(s: State, original: Vars, e: Event): State {
    match e
    case ConfigurationFails => if s.stage.Configuring? then s.(stage := Exited) else s
    case Resolve(writeOk) =>
      if s.stage.Configuring? then
        var removed := Removed(original, s.prodVars, writeOk);
        s.(fileVars := if removed.Some? then original - removed.value.Keys else s.fileVars,
           removed := removed, forCleanup := removed, stage := SettingUp)
      else s
    case Setup(ok) =>
      if s.stage.SettingUp? then s.(stage := if ok then Deploying else Exited, setupFailed := !ok) else s
    case Deploy(ok) =>
      if s.stage.Deploying? then
        s.(deployedWith := Some(s.fileVars), stage := if ok then UpdatingSecrets else Restoring)
      else s
    case UpdateSecrets(created) =>
      if s.stage.UpdatingSecrets? then
        s.(prodVars := if s.prodVars.None? then created else s.prodVars, succeeded := true, stage := Restoring)
      else s
    case Restore(writeOk) =>
      if s.stage.Restoring? then s.(fileVars := Restored(s.fileVars, s.removed, writeOk), stage := Clearing) else s
    case Clear =>
      if s.stage.Clearing? then s.(forCleanup := None, stage := if s.succeeded then Finished else Exited) else s
    case Signal(writeOk) =>
      if s.stage.Finished? || s.stage.Exited? then s
      else s.(fileVars := Restored(s.fileVars, s.forCleanup, writeOk), stage := Exited)
  }

  function Run(original: Vars, prodVars: Option<string>, es: seq<Event>): State {
    if es == [] then Init(original, prodVars) else Step(Run(original, prodVars, es[..|es| - 1]), original, es[|es| - 1])
  }

  // ---- The invariant ----

  /** Taking out and putting back are inverse, and putting back twice is putting back once. */
  lemma RestoreUndoesRemove(original: Vars, secrets: set<string>)
    ensures var c := Conflicts(original, secrets);
            (original - c.Keys) + c == original && original + c == original && c.Keys == original.Keys * secrets
  {}

  predicate RestoreSucceeds(e: Event) {
    match e
    case Restore(writeOk) => writeOk
    case Signal(writeOk) => writeOk
    case _ => true
  }

  /** What the file holds, stage by stage. */
  ghost predicate Inv(s: State, original: Vars) {
    && (s.removed.Some? ==> exists secrets :: s.removed.value == Conflicts(original, secrets) != map[])
    && (s.stage.Configuring? ==> s.removed.None? && s.forCleanup.None? && s.fileVars == original)
    && ((s.stage.SettingUp? || s.stage.Deploying? || s.stage.UpdatingSecrets? || s.stage.Restoring?) ==>
          && s.forCleanup == s.removed
          && s.fileVars == if s.removed.Some? then original - s.removed.value.Keys else original)
    && (s.stage.Clearing? ==> s.forCleanup == s.removed && s.fileVars == original)
    && (s.stage.Finished? ==> s.fileVars == original)
    && (s.stage.Exited? ==>
          s.fileVars == if s.setupFailed && s.removed.Some? then original - s.removed.value.Keys else original)
    && (s.setupFailed ==> s.stage.Exited?)
  }

  lemma StepKeepsInv(s: State, original: Vars, e: Event)
    requires Inv(s, original) && RestoreSucceeds(e)
    ensures Inv(Step(s, original, e), original)
  {
    if s.removed.Some? {
      var secrets :| s.removed.value == Conflicts(original, secrets) != map[];
      RestoreUndoesRemove(original, secrets);
    }
  }

  lemma {:induction false} RunInv(original: Vars, prodVars: Option<string>, es: seq<Event>)
    requires forall i :: 0 <= i < |es| ==> RestoreSucceeds(es[i])
    ensures Inv(Run(original, prodVars, es), original)
  {
    if es != [] {
      RunInv(original, prodVars, es[..|es| - 1]);
      StepKeepsInv(Run(original, prodVars, es[..|es| - 1]), original, es[|es| - 1]);
    }
  }

  /** However a deployment ends - success, a failed deploy or secret update, a signal at any point -
      its vars are the original ones; the one exception is exactly a failed set-up after a
      clash was taken out, which exits without restoring. */
  lemma VarsRoundTripIff(original: Vars, prodVars: Option<string>, es: seq<Event>)
    requires forall i :: 0 <= i < |es| ==> RestoreSucceeds(es[i])
    requires var s := Run(original, prodVars, es); s.stage.Finished? || s.stage.Exited?
    ensures var s := Run(original, prodVars, es);
            s.fileVars == original <==> !(s.setupFailed && s.removed.Some?)
  {
    RunInv(original, prodVars, es);
    var s := Run(original, prodVars, es);
    if s.setupFailed && s.removed.Some? {
      var secrets :| s.removed.value == Conflicts(original, secrets) != map[];
      var name :| name in s.removed.value;
      assert name in original && name !in s.fileVars;
    }
  }

  /** The exception is real: for all vars and secrets that clash, a deployment whose set-up fails ends
      with other vars than it found. */
  lemma FailedSetupLosesVars(original: Vars, prodVars: Option<string>)
    requires Removed(original, prodVars, true).Some?
    ensures exists es: seq<Event> ::
              && (forall i :: 0 <= i < |es| ==> RestoreSucceeds(es[i]))
              && Run(original, prodVars, es).stage.Exited? && Run(original, prodVars, es).fileVars != original
  {
    var es := [Resolve(true), Setup(false)];
    assert es[..1] == [Resolve(true)] && es[..1][..0] == [];
    assert Run(original, prodVars, es[..1]) == Step(Init(original, prodVars), original, Resolve(true));
    var s := Run(original, prodVars, es);
    assert s.stage.Exited? && s.setupFailed && s.removed.Some?;
    VarsRoundTripIff(original, prodVars, es);
  }

  /** A restore that cannot write leaves the file as it is, in the last step and in the signal handler. */
  lemma FailedRestoreChangesNothing(s: State, original: Vars)
    ensures Step(s, original, Restore(false)).fileVars == s.fileVars
    ensures Step(s, original, Signal(false)).fileVars == s.fileVars
  {}

  /** Existing secrets are never replaced; without any, the secret update may create them, once. */
  lemma {:induction false} SecretsAreKept(original: Vars, prodVars: Option<string>, es: seq<Event>)
    ensures var s := Run(original, prodVars, es);
            && (prodVars.Some? ==> s.prodVars == prodVars)
            && (prodVars.None? && s.prodVars.Some? ==> UpdateSecrets(s.prodVars) in es)
            && (s.stage.Finished? ==> s.forCleanup.None?)
  {
    if es != [] {
      var before, e := es[..|es| - 1], es[|es| - 1];
      SecretsAreKept(original, prodVars, before);
      SecretsStep(Run(original, prodVars, before), original, e);
      assert es == before + [e];
    }
  }

  lemma SecretsStep(s: State, original: Vars, e: Event)
    ensures var t := Step(s, original, e);
            && (t.prodVars == s.prodVars || (s.prodVars.None? && e == UpdateSecrets(t.prodVars)))
            && (t.stage.Finished? ==> (s.stage.Finished? && t == s) || t.forCleanup.None?)
  {}

  ghost predicate WorkedSoFar(s: State, es: seq<Event>) {
    && (s.stage.Deploying? || s.stage.UpdatingSecrets? || s.stage.Finished? || s.succeeded ==> Setup(true) in es)
    && (s.stage.UpdatingSecrets? || s.stage.Finished? || s.succeeded ==> Deploy(true) in es)
    && (s.stage.Finished? ==> s.succeeded)
    && (s.succeeded ==> exists created :: UpdateSecrets(created) in es)
  }

  lemma WorkedStep(s: State, original: Vars, es: seq<Event>, e: Event)
    requires WorkedSoFar(s, es)
    ensures WorkedSoFar(Step(s, original, e), es + [e])
  {
    assert e in es + [e];
    assert forall d :: d in es ==> d in es + [e];
  }

  /** A deployment reports success only after its set-up, its `wrangler deploy` and its secret update worked. */
  lemma {:induction false} FinishedMeansAllWorked(original: Vars, prodVars: Option<string>, es: seq<Event>)
    ensures WorkedSoFar(Run(original, prodVars, es), es)
    ensures Run(original, prodVars, es).stage.Finished? ==>
              Setup(true) in es && Deploy(true) in es && exists created :: UpdateSecrets(created) in es
  {
    if es != [] {
      var before, e := es[..|es| - 1], es[|es| - 1];
      FinishedMeansAllWorked(original, prodVars, before);
      WorkedStep(Run(original, prodVars, before), original, before, e);
      assert es == before + [e];
    }
  }

  ghost predicate DeployInv(s: State, original: Vars, prodVars: Option<string>) {
    && (s.stage.Configuring? ==> s.deployedWith.None? && s.prodVars == prodVars)
    && (s.stage.SettingUp? ==> s.deployedWith.None?)
    && ((s.stage.SettingUp? || s.stage.Deploying?) ==> Clean(s.fileVars, prodVars))
    && (s.deployedWith.Some? ==> Clean(s.deployedWith.value, prodVars))
  }

  /** No var has the name of a secret that .prod.vars held at the start. */
  ghost predicate Clean(vars: Vars, prodVars: Option<string>) {
    prodVars.Some? ==> forall name :: name in vars ==> name !in SecretNames(prodVars.value)
  }

  lemma ResolvedIsClean(original: Vars, prodVars: Option<string>)
    ensures var removed := Removed(original, prodVars, true);
            Clean(if removed.Some? then original - removed.value.Keys else original, prodVars)
  {
    if prodVars.Some? {
      var c := Conflicts(original, SecretNames(prodVars.value));
      assert forall name :: name in original && name in SecretNames(prodVars.value) ==> name in c;
    }
  }

  lemma DeployStep(s: State, original: Vars, prodVars: Option<string>, e: Event)
    requires DeployInv(s, original, prodVars) && (s.stage.Configuring? ==> s.fileVars == original)
    requires e.Resolve? ==> e.writeOk
    ensures DeployInv(Step(s, original, e), original, prodVars)
  {
    ResolvedIsClean(original, prodVars);
  }

  lemma {:induction false} DeployRun(original: Vars, prodVars: Option<string>, es: seq<Event>)
    requires forall i :: 0 <= i < |es| ==> (es[i].Resolve? ==> es[i].writeOk) && RestoreSucceeds(es[i])
    ensures DeployInv(Run(original, prodVars, es), original, prodVars)
  {
    if es != [] {
      var before := es[..|es| - 1];
      DeployRun(original, prodVars, before);
      RunInv(original, prodVars, before);
      DeployStep(Run(original, prodVars, before), original, prodVars, es[|es| - 1]);
    }
  }

  /** When .prod.vars exists and the configuration can be rewritten, `wrangler deploy` runs on vars
      that share no name with the secrets. */
  lemma DeployedVarsAreClean(original: Vars, prodVars: Option<string>, es: seq<Event>)
    requires forall i :: 0 <= i < |es| ==> (es[i].Resolve? ==> es[i].writeOk) && RestoreSucceeds(es[i])
    requires prodVars.Some? && Run(original, prodVars, es).deployedWith.Some?
    ensures Run(original, prodVars, es).deployedWith.value.Keys !! SecretNames(prodVars.value)
  {
    DeployRun(original, prodVars, es);
  }

  // ---- The class ----

  class DeploymentManager {
    const configVars: Vars         // parsed once, at construction
    var fileVars: Vars
    var prodVars: Option<string>
    var conflictingVarsForCleanup: Option<Vars>

    constructor (vars: Vars, prodVars: Option<string>)
      ensures configVars == fileVars == vars && this.prodVars == prodVars && conflictingVarsForCleanup.None?
    {
      configVars, fileVars, this.prodVars, conflictingVarsForCleanup := vars, vars, prodVars, None;
    }

    method ReadSecretNames(content: string) returns (names: set<string>)
      ensures names == SecretNames(content)
    {
      var lines := Split(content, '\n');
      names := {};
      var i := 0;
      while i < |lines|
        invariant 0 <= i <= |lines| && names == NamesIn(lines[..i])
      {
        assert lines[..i + 1][..i] == lines[..i];
        var name := SecretName(lines[i]);
        if name.Some? {
          names := names + {name.value};
        }
        i := i + 1;
      }
      assert lines[..i] == lines;
    }

    /** The loop over the keys of the configuration. */
    method CollectConflicts(secrets: set<string>) returns (conflicting: Vars)
      ensures conflicting == Conflicts(configVars, secrets)
    {
      conflicting := map[];
      var todo := configVars.Keys;
      while todo != {}
        invariant todo <= configVars.Keys
        invariant conflicting == Conflicts(configVars - todo, secrets)
        decreases todo
      {
        var name :| name in todo;
        if name in secrets {
          conflicting := conflicting[name := configVars[name]];
        }
        todo := todo - {name};
      }
      assert configVars - {} == configVars;
    }

    /** The loop that deletes the names from a copy. */
    method WithoutVars(names: set<string>) returns (updated: Vars)
      ensures updated == configVars - names
    {
      updated := configVars;
      var gone := names;
      while gone != {}
        invariant gone <= names && updated == configVars - (names - gone)
        decreases gone
      {
        var name :| name in gone;
        updated := updated - {name};
        gone := gone - {name};
      }
    }

    /** Collects the clashing vars, deletes them from a copy and writes it back. */
    method RemoveConflictingVars(writeOk: bool) returns (removed: Option<Vars>)
      modifies `fileVars
      ensures removed == Removed(configVars, prodVars, writeOk)
      ensures fileVars == if removed.Some? then configVars - removed.value.Keys else old(fileVars)
    {
      if prodVars.None? {
        return None;
      }
      var secrets := ReadSecretNames(prodVars.value);
      var conflicting := CollectConflicts(secrets);
      if |conflicting| == 0 {
        return None;
      }
      var updated := WithoutVars(conflicting.Keys);
      if !writeOk {
        return None;
      }
      fileVars := updated;
      removed := Some(conflicting);
    }

    method RestoreOriginalVars(removed: Option<Vars>, writeOk: bool)
      modifies `fileVars
      ensures fileVars == Restored(old(fileVars), removed, writeOk)
    {
      if removed.None? || |removed.value| == 0 {
        return;
      }
      if writeOk {
        fileVars := fileVars + removed.value;
      }
    }

    /** The part of deploy() from the conflict step on, when no signal arrives. */
    method DeployFromConflicts(setupOk: bool, deployOk: bool, created: Option<string>) returns (succeeded: bool)
      requires fileVars == configVars && conflictingVarsForCleanup.None?
      modifies this
      ensures succeeded <==> setupOk && deployOk
      ensures fileVars == configVars <==> setupOk || Removed(configVars, old(prodVars), true).None?
      ensures setupOk ==> conflictingVarsForCleanup.None?
    {
      var conflictingVars := RemoveConflictingVars(true);
      conflictingVarsForCleanup := conflictingVars;
      if conflictingVars.Some? {
        RestoreUndoesRemove(configVars, SecretNames(prodVars.value));
      }
      if !setupOk {
        if conflictingVars.Some? {
          var name :| name in conflictingVars.value;
          assert name in configVars && name !in fileVars;
        }
        return false;
      }
      succeeded := false;
      if deployOk {
        if prodVars.None? {
          prodVars := created;
        }
        succeeded := true;
      }
      RestoreOriginalVars(conflictingVars, true);
      conflictingVarsForCleanup := None;
    }

    /** gracefulExit: restores whatever is still marked for clean-up. */
    method GracefulExit(writeOk: bool)
      modifies `fileVars
      ensures fileVars == Restored(old(fileVars), conflictingVarsForCleanup, writeOk)
    {
      if conflictingVarsForCleanup.Some? {
        RestoreOriginalVars(conflictingVarsForCleanup, writeOk);
      }
    }
  }
}
