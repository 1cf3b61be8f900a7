/** Over any sequence of installs and removes: everyone else's groups, and the one way to lose them. */
module HookSettingsRuns {
  import opened Options
  import opened Hosts
  import HookCommand
  import opened HookSettings
  import opened HookSettingsLaws

  /** The settings, and the command recorded in the ownership manifest. */
  datatype State = State(hooks: Hooks, manifest: Option<string>)

  /** Discovery is used only when the packaged wrapper is installed. */
  datatype Action = Install(command: string, packaged: bool) | Remove(deleting: bool)

  /** One attempt. A refused attempt changes nothing; removal needs a manifest. */
  ghost predicate Step(table: Table, owns: string -> bool, flagged: string -> bool, s: State, a: Action, t: State) {
    match a
    case Install(command, packaged) =>
      || t == s
      || exists owned :: Owns(s.hooks, table, s.manifest, if packaged then Some(owns) else None, owned) && Acceptable(s.hooks, table, owned, flagged)
                         && t == State(Installed(s.hooks, table, command, owned), Some(command))
    case Remove(deleting) =>
      || t == s
      || (s.manifest.Some? && ExistingValid(s.hooks, table, s.manifest.value)
          && (deleting ==> Unreferenced(s.hooks, s.manifest, flagged))
          && t == State(Removed(s.hooks, table, s.manifest), None))
  }

  ghost predicate Run(table: Table, owns: string -> bool, flagged: string -> bool, states: seq<State>, actions: seq<Action>) {
    && |states| == |actions| + 1
    && forall i :: 0 <= i < |actions| ==> Step(table, owns, flagged, states[i], actions[i], states[i + 1])
  }

  /** No group carries the command. */
  ghost predicate Absent(hooks: Hooks, command: string) {
    forall e, i :: e in hooks && 0 <= i < |hooks[e]| ==> !HasCommand(hooks[e][i], command)
  }

  /** Everyone else's groups, in order, and while installed one shadow group at the end of each event. */
  function With(theirs: Hooks, table: Table, manifest: Option<string>): Hooks {
    map e | e in theirs ::
      if e in table && manifest.Some? then theirs[e] + [ShadowGroup(table, e, manifest.value)] else theirs[e]
  }

  predicate Kept(table: Table, theirs: Hooks, s: State) {
    table.Keys <= theirs.Keys && s.hooks == With(theirs, table, s.manifest)
  }

  /** The installed command, if any, is nobody else's. */
  ghost predicate Distinct(theirs: Hooks, s: State) {
    s.manifest.Some? ==> Absent(theirs, s.manifest.value)
  }

  /** Groups of everyone else that an installer without a manifest takes for its own: discovery finds
      their command in exactly the host's events, and nothing else in the settings is refused. */
  ghost predicate Adoptable(table: Table, owns: string -> bool, flagged: string -> bool, theirs: Hooks, d: string) {
    Discovery(theirs, table, owns, Some(d)) && Acceptable(theirs, table, Some(d), flagged)
  }

  // ----- where runs start -----

  /** An accepted install of a command nobody else carries leaves everyone else's groups and its own. */
  lemma InstallReachesKept(table: Table, flagged: string -> bool, hooks: Hooks, owned: Option<string>, command: string)
    returns (theirs: Hooks)
    requires Acceptable(hooks, table, owned, flagged) && Unused(hooks, table, owned, command)
    ensures theirs == map e | e in hooks.Keys + table.Keys :: Foreign(hooks, table, owned, e)
    ensures Kept(table, theirs, State(Installed(hooks, table, command, owned), Some(command)))
    ensures Absent(theirs, command) && Unreferenced(theirs, None, flagged)
  {
    theirs := map e | e in hooks.Keys + table.Keys :: Foreign(hooks, table, owned, e);
    forall e | e in theirs ensures GroupsUnreferenced(theirs[e], None, flagged) {
      forall i, c | 0 <= i < |theirs[e]| && HasCommand(theirs[e][i], c) ensures !flagged(c) {
        if flagged(c) {
          ForeignIsClear(hooks, table, owned, flagged, e, theirs[e][i], c);
        }
      }
    }
    forall e, i | e in theirs && 0 <= i < |theirs[e]| ensures !HasCommand(theirs[e][i], command) {
      assert theirs[e][i] in Foreign(hooks, table, owned, e);
    }
    assert Installed(hooks, table, command, owned) == With(theirs, table, Some(command));
  }

  // ----- one step -----

  lemma WithoutOwn(theirs: Hooks, table: Table, manifest: Option<string>, e: string)
    requires e in table && e in theirs && (manifest.Some? ==> Absent(theirs, manifest.value))
    ensures Without(With(theirs, table, manifest)[e], table, e, manifest) == theirs[e]
  {
    var s := theirs[e];
    if manifest.Some? {
      var own := ShadowGroup(table, e, manifest.value);
      ShadowGroupHas(table, e, manifest.value, manifest.value);
      assert forall i :: 0 <= i < |s| ==> s[i] != own;
      WithoutAppend(s, [own], table, e, manifest);
      assert Without([own], table, e, manifest) == [];
    }
    WithoutNone(s, table, e, manifest);
  }

  lemma InstallKeeps(table: Table, theirs: Hooks, s: State, command: string)
    requires Kept(table, theirs, s) && Distinct(theirs, s)
    ensures Kept(table, theirs, State(Installed(s.hooks, table, command, s.manifest), Some(command)))
  {
    var after := Installed(s.hooks, table, command, s.manifest);
    forall e | e in theirs ensures e in after && after[e] == With(theirs, table, Some(command))[e] {
      if e in table {
        WithoutOwn(theirs, table, s.manifest, e);
      }
    }
    assert after.Keys == theirs.Keys;
  }

  lemma RemoveKeeps(table: Table, theirs: Hooks, s: State)
    requires Kept(table, theirs, s) && Distinct(theirs, s)
    ensures Kept(table, theirs, State(Removed(s.hooks, table, s.manifest), None))
  {
    var after := Removed(s.hooks, table, s.manifest);
    forall e | e in theirs ensures after[e] == theirs[e] {
      if e in table {
        WithoutOwn(theirs, table, s.manifest, e);
      }
    }
    assert after == theirs == With(theirs, table, None);
  }

  /** A manifest naming a command that someone else carries too makes every attempt refused. */
  lemma SharedIsRefused(table: Table, theirs: Hooks, s: State)
    requires Kept(table, theirs, s) && !Distinct(theirs, s)
    ensures !ExistingValid(s.hooks, table, s.manifest.value)
  {
    var c := s.manifest.value;
    var e, i :| e in theirs && 0 <= i < |theirs[e]| && HasCommand(theirs[e][i], c);
    assert s.hooks[e][i] == theirs[e][i];
    if e in table {
      ShadowGroupHas(table, e, c, c);
      assert HasCommand(s.hooks[e][|theirs[e]|], c);
    }
    assert !EventValid(s.hooks[e], table, e, c);
  }

  lemma StepKeeps(table: Table, owns: string -> bool, flagged: string -> bool, theirs: Hooks, s: State, a: Action, t: State)
    requires Kept(table, theirs, s) && Step(table, owns, flagged, s, a, t)
    requires forall d :: !Adoptable(table, owns, flagged, theirs, d)
    ensures Kept(table, theirs, t)
  {
    if !Distinct(theirs, s) {
      SharedIsRefused(table, theirs, s);
    } else if t != s {
      match a {
        case Install(command, packaged) =>
          var owned :| Owns(s.hooks, table, s.manifest, if packaged then Some(owns) else None, owned) && Acceptable(s.hooks, table, owned, flagged)
                       && t == State(Installed(s.hooks, table, command, owned), Some(command));
          if s.manifest.None? && owned.Some? {
            assert With(theirs, table, None) == theirs;
            assert Adoptable(table, owns, flagged, theirs, owned.value);
          }
          InstallKeeps(table, theirs, s, command);
        case Remove(_) => RemoveKeeps(table, theirs, s);
      }
    }
  }

  // ----- main results -----

  /** Over any sequence of installs and removes, accepted or refused: everyone else's groups stay, in
      order, with one shadow group after them in each of the host's events while installed and
      nothing else while removed; provided none of their groups could be adopted. */
  lemma {:induction false} RunKeepsForeign(table: Table, owns: string -> bool, flagged: string -> bool,
                                           theirs: Hooks, states: seq<State>, actions: seq<Action>)
    requires Run(table, owns, flagged, states, actions) && Kept(table, theirs, states[0])
    requires forall d :: !Adoptable(table, owns, flagged, theirs, d)
    ensures Kept(table, theirs, states[|actions|])
  {
    if actions == [] {
    } else {
      StepKeeps(table, owns, flagged, theirs, states[0], actions[0], states[1]);
      assert Run(table, owns, flagged, states[1..], actions[1..]) by {
        forall i | 0 <= i < |actions[1..]| ensures Step(table, owns, flagged, states[1..][i], actions[1..][i], states[1..][i + 1]) {
          assert Step(table, owns, flagged, states[i + 1], actions[i + 1], states[i + 2]);
        }
      }
      RunKeepsForeign(table, owns, flagged, theirs, states[1..], actions[1..]);
    }
  }

  lemma RemovalAccepted(table: Table, theirs: Hooks, s: State)
    requires Kept(table, theirs, s) && Distinct(theirs, s) && s.manifest.Some?
    ensures ExistingValid(s.hooks, table, s.manifest.value)
  {
    var c := s.manifest.value;
    forall e | e in s.hooks ensures EventValid(s.hooks[e], table, e, c) {
      if e in table {
        ShadowGroupHas(table, e, c, c);
      }
    }
  }

  /** Remove what is installed, if anything is, then install without a manifest. */
  lemma AdoptingRun(table: Table, owns: string -> bool, flagged: string -> bool, theirs: Hooks,
                    s: State, command: string, d: string)
    returns (states: seq<State>, actions: seq<Action>)
    requires Kept(table, theirs, s) && Distinct(theirs, s) && Adoptable(table, owns, flagged, theirs, d)
    ensures Run(table, owns, flagged, states, actions) && states[0] == s
    ensures states[|actions|] == State(Installed(theirs, table, command, Some(d)), Some(command))
  {
    var none, install := State(theirs, None), Install(command, true);
    var lost := State(Installed(theirs, table, command, Some(d)), Some(command));
    assert With(theirs, table, None) == theirs;
    assert Owns(theirs, table, None, Some(owns), Some(d));
    assert Step(table, owns, flagged, none, install, lost);
    if s.manifest.None? {
      states, actions := [none, lost], [install];
    } else {
      RemovalAccepted(table, theirs, s);
      RemoveKeeps(table, theirs, s);
      assert Step(table, owns, flagged, s, Remove(false), none);
      states, actions := [s, none, lost], [Remove(false), install];
    }
  }

  /** The run that loses them: once nothing is installed, the next install takes the adoptable groups
      for its own and drops one from every event. */
  lemma AdoptionLosesGroups(table: Table, owns: string -> bool, flagged: string -> bool, theirs: Hooks,
                            s: State, command: string, d: string)
    returns (states: seq<State>, actions: seq<Action>)
    requires Kept(table, theirs, s) && Distinct(theirs, s) && Adoptable(table, owns, flagged, theirs, d) && command != d
    ensures Run(table, owns, flagged, states, actions) && states[0] == s
    ensures var t := states[|actions|];
      && t.manifest == Some(command) && table.Keys <= t.hooks.Keys
      && forall e :: e in table ==> ShadowGroup(table, e, d) in theirs[e] && ShadowGroup(table, e, d) !in t.hooks[e]
  {
    states, actions := AdoptingRun(table, owns, flagged, theirs, s, command, d);
    forall e | e in table
      ensures ShadowGroup(table, e, d) in theirs[e]
      ensures ShadowGroup(table, e, d) !in Installed(theirs, table, command, Some(d))[e]
    {
      AdoptedIsShadow(table, owns, theirs, d, e);
      AdoptedGroupGoes(table, theirs, command, d, e);
    }
  }

  lemma AdoptedGroupGoes(table: Table, theirs: Hooks, command: string, d: string, e: string)
    requires e in table && e in theirs && command != d
    ensures ShadowGroup(table, e, d) !in Without(theirs[e], table, e, Some(d)) + [ShadowGroup(table, e, command)]
  {
    var own, mine := ShadowGroup(table, e, d), ShadowGroup(table, e, command);
    WithoutAre(theirs[e], table, e, Some(d));
    assert own.handlers[0] != mine.handlers[0];
    assert own !in [mine];
  }

  lemma AdoptedIsShadow(table: Table, owns: string -> bool, theirs: Hooks, d: string, e: string)
    requires Discovery(theirs, table, owns, Some(d)) && e in table
    ensures e in theirs && ShadowGroup(table, e, d) in theirs[e]
  {
    assert d in Found(theirs[e], owns);
    var i :| 0 <= i < |theirs[e]| && Candidate(theirs[e][i], owns) && CommandOf(theirs[e][i]) == d;
    assert EventUnambiguous(theirs[e], table, e, owns);
  }

  /** Everyone else's groups survive every run exactly when none of them could be adopted. */
  lemma KeptExactly(table: Table, owns: string -> bool, flagged: string -> bool, theirs: Hooks, s: State)
    requires table.Keys != {} && Kept(table, theirs, s) && Distinct(theirs, s)
    ensures (forall states, actions :: Run(table, owns, flagged, states, actions) && states[0] == s
               ==> Kept(table, theirs, states[|actions|]))
      <==> forall d :: !Adoptable(table, owns, flagged, theirs, d)
  {
    if forall d :: !Adoptable(table, owns, flagged, theirs, d) {
      forall states, actions | Run(table, owns, flagged, states, actions) && states[0] == s
        ensures Kept(table, theirs, states[|actions|])
      {
        RunKeepsForeign(table, owns, flagged, theirs, states, actions);
      }
    } else {
      var d :| Adoptable(table, owns, flagged, theirs, d);
      var states, actions := AdoptionLosesGroups(table, owns, flagged, theirs, s, d + " ", d);
      var e :| e in table;
      assert !Kept(table, theirs, states[|actions|]);
    }
  }

  // ----- which groups could be adopted -----

  /** Groups an accepted install left alone are adopted only through a command that runs the managed
      wrapper and that the scan does not flag. */
  lemma AdoptedIsUnflagged(table: Table, owns: string -> bool, flagged: string -> bool, theirs: Hooks, d: string)
    requires table.Keys != {} && Adoptable(table, owns, flagged, theirs, d) && Unreferenced(theirs, None, flagged)
    ensures owns(d) && !flagged(d) && !Absent(theirs, d)
  {
    var e :| e in table;
    AdoptedIsShadow(table, owns, theirs, d, e);
    var i :| 0 <= i < |theirs[e]| && theirs[e][i] == ShadowGroup(table, e, d);
    ShadowGroupHas(table, e, d, d);
    assert HasCommand(theirs[e][i], d);
    assert GroupsUnreferenced(theirs[e], None, flagged);
    assert d in Found(theirs[e], owns);
  }

  /** The commands that run the wrapper, as the parser reads them. Shell comments are among them. */
  function RunsWrapper(host: Host, wrapper: string): string -> bool {
    (c: string) => var call := HookCommand.Parse(c, host); call.Some? && call.value.wrapper == wrapper
  }

  lemma SoleGroup(table: Table, e: string, d: string, owns: string -> bool, flagged: string -> bool)
    requires e in table && owns(d) && !flagged(d)
    ensures var s := [ShadowGroup(table, e, d)];
      && EventValid(s, table, e, d) && GroupsUnreferenced(s, None, flagged)
      && EventUnambiguous(s, table, e, owns) && Found(s, owns) == {d}
  {
    var g := ShadowGroup(table, e, d);
    assert Candidate(g, owns) && CommandOf(g) == d;
    assert Candidate([g][0], owns) && CommandOf([g][0]) == d;
    forall c ensures HasCommand(g, c) <==> c == d {
      ShadowGroupHas(table, e, d, c);
    }
  }

  /** Shadow-shaped groups whose command is a comment naming the wrapper are adoptable under any scan
      that, skipping comments, does not flag it. */
  lemma CommentedGroupsAreAdoptable(table: Table, host: Host, wrapper: string, flagged: string -> bool)
    returns (theirs: Hooks)
    requires table.Keys != {} && !flagged(HookCommand.Commented(host, wrapper))
    ensures theirs == map e | e in table :: [ShadowGroup(table, e, HookCommand.Commented(host, wrapper))]
    ensures Unreferenced(theirs, None, flagged)
    ensures Adoptable(table, RunsWrapper(host, wrapper), flagged, theirs, HookCommand.Commented(host, wrapper))
  {
    var d, owns := HookCommand.Commented(host, wrapper), RunsWrapper(host, wrapper);
    theirs := map e | e in table :: [ShadowGroup(table, e, d)];
    assert owns(d) by {
      HookCommand.CommentedLineParses(host, wrapper);
    }
    SoleGroups(table, d, owns, flagged, theirs);
  }

  lemma SoleGroups(table: Table, d: string, owns: string -> bool, flagged: string -> bool, theirs: Hooks)
    requires table.Keys != {} && owns(d) && !flagged(d) && theirs == map e | e in table :: [ShadowGroup(table, e, d)]
    ensures Unreferenced(theirs, None, flagged) && Adoptable(table, owns, flagged, theirs, d)
  {
    forall e | e in table
      ensures EventValid(theirs[e], table, e, d) && GroupsUnreferenced(theirs[e], None, flagged)
      ensures EventUnambiguous(theirs[e], table, e, owns) && Found(theirs[e], owns) == {d}
    {
      SoleGroup(table, e, d, owns, flagged);
    }
  }
}
