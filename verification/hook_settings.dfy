/** Adding and removing the shadow hook groups in a host's settings. */
module HookSettings {
  import opened Options

  // ----- settings -----

  /** A handler: its command when that is text, and the rest of its members as one value. */
  datatype Handler = Handler(command: Option<string>, rest: HandlerRest) | NotAnObject(id: int)

  datatype HandlerRest = ShadowHandler | OtherHandler(id: int)

  /** A group: its handlers when they are an array, and the rest of its members as one value. */
  datatype Group = Group(handlers: seq<Handler>, rest: GroupRest) | NotAGroup(id: int)

  datatype GroupRest = Matcher(text: string) | OtherGroup(id: int)

  type Hooks = map<string, seq<Group>>

  /** A host's hook events, each with the matcher of its shadow group. */
  type Table = map<string, string>

  function CodexEvents(): Table {
    map["SessionStart" := "startup|resume|clear",
        "PreToolUse" := "^(?:apply_patch|functions\\.exec|functions\\.wait|view_image|web\\.run|write_stdin)$",
        "PostToolUse" := "Write|Edit|MultiEdit|NotebookEdit|apply_patch|ApplyPatch|functions\\.exec"]
  }

  function ClaudeEvents(): Table {
    map["SessionStart" := "startup|resume",
        "PreToolUse" := "^(?:Agent|Bash|Edit|Glob|Grep|MultiEdit|NotebookEdit|Read|WebFetch|WebSearch|Write)$",
        "PostToolUse" := "Write|Edit|MultiEdit|NotebookEdit|Bash"]
  }

  datatype Failure = Ambiguous | Collision | ForeignReference | ManifestRequired

  datatype Result<+T> = Ok(value: T) | Refused(error: Failure)

  function ShadowGroup(table: Table, event: string, command: string): Group
    requires event in table
  {
    Group([Handler(Some(command), ShadowHandler)], Matcher(table[event]))
  }

  function GroupsOf(hooks: Hooks, event: string): seq<Group> {
    if event in hooks then hooks[event] else []
  }

  predicate HasCommand(g: Group, command: string) {
    g.Group? && exists k :: 0 <= k < |g.handlers| && g.handlers[k].Handler? && g.handlers[k].command == Some(command)
  }

  // ----- dropping the owned groups of one event -----

  predicate IsOwned(g: Group, table: Table, event: string, owned: Option<string>)
    requires event in table
  {
    owned.Some? && g == ShadowGroup(table, event, owned.value)
  }

  function Without(groups: seq<Group>, table: Table, event: string, owned: Option<string>): seq<Group>
    requires event in table
  {
    if groups == [] then []
    else if IsOwned(groups[0], table, event, owned) then Without(groups[1..], table, event, owned)
    else [groups[0]] + Without(groups[1..], table, event, owned)
  }

  method WithoutShadowGroups(groups: seq<Group>, table: Table, event: string, owned: Option<string>) returns (retained: seq<Group>)
    requires event in table
    ensures retained == Without(groups, table, event, owned)
  {
    retained := [];
    var rest := groups;
    while rest != []
      invariant retained + Without(rest, table, event, owned) == Without(groups, table, event, owned)
      decreases |rest|
    {
      var group := rest[0];
      if !IsOwned(group, table, event, owned) {
        retained := retained + [group];
      }
      rest := rest[1..];
    }
  }

  // ----- what must hold of the settings -----

  /** Every group with the owned command is the group the installer writes, at most one an event. */
  ghost predicate ExistingValid(hooks: Hooks, table: Table, command: string) {
    forall e :: e in hooks ==> EventValid(hooks[e], table, e, command)
  }

  predicate GroupValid(g: Group, table: Table, event: string, command: string) {
    HasCommand(g, command) ==> event in table && g == ShadowGroup(table, event, command)
  }

  ghost predicate EventValid(groups: seq<Group>, table: Table, event: string, command: string) {
    && (forall i :: 0 <= i < |groups| ==> GroupValid(groups[i], table, event, command))
    && (forall i, j :: 0 <= i < j < |groups| ==> !(HasCommand(groups[i], command) && HasCommand(groups[j], command)))
  }

  method ValidateEvent(groups: seq<Group>, table: Table, event: string, command: string) returns (valid: bool)
    ensures valid <==> EventValid(groups, table, event, command)
  {
    var occurrences, i := 0, 0;
    ghost var last := 0;
    while i < |groups|
      invariant i <= |groups| && 0 <= occurrences <= 1
      invariant EventValid(groups[..i], table, event, command)
      invariant occurrences == 1 ==> last < i && HasCommand(groups[last], command)
      invariant occurrences == 0 ==> forall k :: 0 <= k < i ==> !HasCommand(groups[k], command)
    {
      if HasCommand(groups[i], command) {
        if !GroupValid(groups[i], table, event, command) {
          return false;
        }
        occurrences := occurrences + 1;
        if occurrences > 1 {
          return false;
        }
        last := i;
      }
      i := i + 1;
    }
    assert groups[..i] == groups;
    valid := true;
  }

  method ValidateExistingShadowGroups(hooks: Hooks, table: Table, command: string) returns (valid: bool)
    ensures valid <==> ExistingValid(hooks, table, command)
  {
    var todo := hooks.Keys;
    while todo != {}
      invariant todo <= hooks.Keys
      invariant forall e :: e in hooks && e !in todo ==> EventValid(hooks[e], table, e, command)
      decreases |todo|
    {
      var event :| event in todo;
      valid := ValidateEvent(hooks[event], table, event, command);
      if !valid {
        return;
      }
      todo := todo - {event};
    }
    valid := true;
  }

  /** No command of these but the owned one is flagged as referring to the managed wrapper. */
  ghost predicate GroupsUnreferenced(groups: seq<Group>, owned: Option<string>, flagged: string -> bool) {
    forall i, c :: 0 <= i < |groups| && HasCommand(groups[i], c) && Some(c) != owned ==> !flagged(c)
  }

  ghost predicate Unreferenced(hooks: Hooks, owned: Option<string>, flagged: string -> bool) {
    forall e :: e in hooks ==> GroupsUnreferenced(hooks[e], owned, flagged)
  }

  method ScanGroups(groups: seq<Group>, owned: Option<string>, flagged: string -> bool) returns (clear: bool)
    ensures clear <==> GroupsUnreferenced(groups, owned, flagged)
  {
    var i := 0;
    while i < |groups|
      invariant i <= |groups|
      invariant GroupsUnreferenced(groups[..i], owned, flagged)
    {
      if groups[i].Group? {
        var handlers := groups[i].handlers;
        var k := 0;
        while k < |handlers|
          invariant k <= |handlers|
          invariant forall m :: 0 <= m < k && handlers[m].Handler? && handlers[m].command.Some? && handlers[m].command != owned ==>
                                  !flagged(handlers[m].command.value)
        {
          var h := handlers[k];
          if h.Handler? && h.command.Some? && h.command != owned && flagged(h.command.value) {
            assert HasCommand(groups[i], h.command.value);
            return false;
          }
          k := k + 1;
        }
      }
      i := i + 1;
    }
    assert groups[..i] == groups;
    clear := true;
  }

  method ScanForeignCommands(hooks: Hooks, owned: Option<string>, flagged: string -> bool) returns (clear: bool)
    ensures clear <==> Unreferenced(hooks, owned, flagged)
  {
    var todo := hooks.Keys;
    while todo != {}
      invariant todo <= hooks.Keys
      invariant forall e :: e in hooks && e !in todo ==> GroupsUnreferenced(hooks[e], owned, flagged)
      decreases |todo|
    {
      var event :| event in todo;
      clear := ScanGroups(hooks[event], owned, flagged);
      if !clear {
        return;
      }
      todo := todo - {event};
    }
    clear := true;
  }

  // ----- finding an installation that left no manifest -----

  /** A group whose one handler runs the wrapper. */
  predicate Candidate(g: Group, owns: string -> bool) {
    g.Group? && |g.handlers| == 1 && g.handlers[0].Handler? && g.handlers[0].command.Some? && owns(g.handlers[0].command.value)
  }

  function CommandOf(g: Group): string
    requires g.Group? && |g.handlers| == 1 && g.handlers[0].Handler? && g.handlers[0].command.Some?
  {
    g.handlers[0].command.value
  }

  /** Every candidate of the event is a group the installer writes, and no two are the same. */
  ghost predicate EventUnambiguous(groups: seq<Group>, table: Table, event: string, owns: string -> bool) {
    && (forall i :: 0 <= i < |groups| && Candidate(groups[i], owns) ==>
          event in table && groups[i] == ShadowGroup(table, event, CommandOf(groups[i])))
    && (forall i, j :: 0 <= i < j < |groups| && Candidate(groups[i], owns) && Candidate(groups[j], owns) ==>
          CommandOf(groups[i]) != CommandOf(groups[j]))
  }

  /** The commands of the event's candidates. */
  function Found(groups: seq<Group>, owns: string -> bool): set<string> {
    set i | 0 <= i < |groups| && Candidate(groups[i], owns) :: CommandOf(groups[i])
  }

  ghost predicate Unambiguous(hooks: Hooks, table: Table, owns: string -> bool) {
    forall e :: e in hooks ==> EventUnambiguous(hooks[e], table, e, owns)
  }

  /** Nothing found anywhere, or one command found in exactly the host's events. */
  ghost predicate Discovery(hooks: Hooks, table: Table, owns: string -> bool, found: Option<string>) {
    && Unambiguous(hooks, table, owns)
    && (forall e, c :: e in hooks && c in Found(hooks[e], owns) ==> Some(c) == found)
    && (found.Some? ==> forall e :: e in table ==> e in hooks && found.value in Found(hooks[e], owns))
  }

  /** One event's candidates, each command once. */
  method DiscoverEvent(groups: seq<Group>, table: Table, event: string, owns: string -> bool) returns (clear: bool, commands: set<string>)
    ensures clear <==> EventUnambiguous(groups, table, event, owns)
    ensures clear ==> commands == Found(groups, owns)
  {
    commands := {};
    var i := 0;
    while i < |groups|
      invariant i <= |groups|
      invariant EventUnambiguous(groups[..i], table, event, owns)
      invariant commands == Found(groups[..i], owns)
    {
      var group := groups[i];
      assert groups[..i + 1] == groups[..i] + [group];
      if Candidate(group, owns) {
        var command := CommandOf(group);
        if event !in table || group != ShadowGroup(table, event, command) {
          return false, {};
        }
        if command in commands {
          ghost var k :| 0 <= k < |groups[..i]| && Candidate(groups[..i][k], owns) && CommandOf(groups[..i][k]) == command;
          assert groups[k] == groups[..i][k];
          return false, {};
        }
        commands := commands + {command};
      }
      i := i + 1;
    }
    assert groups[..i] == groups;
    clear := true;
  }

  ghost predicate FoundSomewhere(hooks: Hooks, owns: string -> bool, c: string) {
    exists e :: e in hooks && c in Found(hooks[e], owns)
  }

  /** Every command found, and every event it was found in. */
  method CollectCandidates(hooks: Hooks, table: Table, owns: string -> bool)
    returns (clear: bool, commands: set<string>, events: set<string>)
    ensures clear <==> Unambiguous(hooks, table, owns)
    ensures clear ==> forall c :: c in commands <==> FoundSomewhere(hooks, owns, c)
    ensures clear ==> forall e :: e in hooks ==> Found(hooks[e], owns) <= commands
    ensures clear ==> forall e :: e in events <==> e in hooks && Found(hooks[e], owns) != {}
  {
    commands, events := {}, {};
    var todo := hooks.Keys;
    while todo != {}
      invariant todo <= hooks.Keys
      invariant forall e :: e in hooks && e !in todo ==> EventUnambiguous(hooks[e], table, e, owns)
      invariant forall e :: e in hooks && e !in todo ==> Found(hooks[e], owns) <= commands
      invariant forall c :: c in commands ==> FoundSomewhere(hooks, owns, c)
      invariant forall e :: e in events <==> e in hooks && e !in todo && Found(hooks[e], owns) != {}
      decreases |todo|
    {
      var event :| event in todo;
      var found;
      clear, found := DiscoverEvent(hooks[event], table, event, owns);
      if !clear {
        return;
      }
      commands := commands + found;
      if found != {} {
        events := events + {event};
      }
      todo := todo - {event};
    }
    clear := true;
  }

  method DiscoverOwnedCommand(hooks: Hooks, table: Table, owns: string -> bool) returns (result: Result<Option<string>>)
    requires table.Keys != {}
    ensures result.Ok? ==> Discovery(hooks, table, owns, result.value)
    ensures result.Refused? ==> result.error == Ambiguous && forall found :: !Discovery(hooks, table, owns, found)
  {
    var clear, commands, events := CollectCandidates(hooks, table, owns);
    if !clear {
      return Refused(Ambiguous);
    }
    if commands == {} {
      assert forall e :: e in hooks ==> Found(hooks[e], owns) == {};
      return Ok(None);
    }
    var command :| command in commands;
    if commands != {command} {
      var other :| other in commands && other != command;
      TwoFound(hooks, table, owns, command, other);
      return Refused(Ambiguous);
    }
    EventsAreCandidates(hooks, table, owns, events);
    if events != table.Keys {
      EventMissing(hooks, table, owns, command, events);
      return Refused(Ambiguous);
    }
    OneFound(hooks, table, owns, command);
    result := Ok(Some(command));
  }

  lemma TwoFound(hooks: Hooks, table: Table, owns: string -> bool, c: string, d: string)
    requires FoundSomewhere(hooks, owns, c) && FoundSomewhere(hooks, owns, d) && c != d
    ensures forall found :: !Discovery(hooks, table, owns, found)
  {
  }

  lemma EventMissing(hooks: Hooks, table: Table, owns: string -> bool, c: string, events: set<string>)
    requires FoundSomewhere(hooks, owns, c) && events < table.Keys
    requires forall e :: e in events <==> e in hooks && Found(hooks[e], owns) != {}
    ensures forall found :: !Discovery(hooks, table, owns, found)
  {
    var missing :| missing in table.Keys && missing !in events;
  }

  lemma OneFound(hooks: Hooks, table: Table, owns: string -> bool, c: string)
    requires Unambiguous(hooks, table, owns)
    requires forall d :: FoundSomewhere(hooks, owns, d) ==> d == c
    requires forall e :: e in table ==> e in hooks && Found(hooks[e], owns) != {}
    ensures Discovery(hooks, table, owns, Some(c))
  {
    forall e, d | e in hooks && d in Found(hooks[e], owns) ensures d == c {
      assert FoundSomewhere(hooks, owns, d);
    }
    forall e | e in table ensures c in Found(hooks[e], owns) {
      var d :| d in Found(hooks[e], owns);
    }
  }

  lemma EventsAreCandidates(hooks: Hooks, table: Table, owns: string -> bool, events: set<string>)
    requires Unambiguous(hooks, table, owns)
    requires forall e :: e in events <==> e in hooks && Found(hooks[e], owns) != {}
    ensures events <= table.Keys
  {
    forall e | e in events ensures e in table {
      var c :| c in Found(hooks[e], owns);
      var i :| 0 <= i < |hooks[e]| && Candidate(hooks[e][i], owns) && CommandOf(hooks[e][i]) == c;
      assert EventUnambiguous(hooks[e], table, e, owns);
    }
  }

  // ----- the new settings -----

  function Installed(hooks: Hooks, table: Table, command: string, owned: Option<string>): Hooks {
    map e | e in hooks.Keys + table.Keys ::
      if e in table then Without(GroupsOf(hooks, e), table, e, owned) + [ShadowGroup(table, e, command)] else hooks[e]
  }

  function Removed(hooks: Hooks, table: Table, owned: Option<string>): Hooks {
    map e | e in hooks :: if e in table then Without(hooks[e], table, e, owned) else hooks[e]
  }

  /** The edit under way: events still to do are as they were. */
  ghost predicate InstalledExcept(before: Hooks, table: Table, command: string, owned: Option<string>, todo: set<string>, now: Hooks) {
    && now.Keys == before.Keys + (table.Keys - todo)
    && (forall e :: e in now && (e !in table || e in todo) ==> e in before && now[e] == before[e])
    && (forall e :: e in table && e !in todo ==> now[e] == Without(GroupsOf(before, e), table, e, owned) + [ShadowGroup(table, e, command)])
  }

  lemma PlaceOne(before: Hooks, table: Table, command: string, owned: Option<string>, todo: set<string>, now: Hooks, e: string)
    requires todo <= table.Keys && e in todo && InstalledExcept(before, table, command, owned, todo, now)
    ensures
      var placed := now[e := Without(GroupsOf(now, e), table, e, owned) + [ShadowGroup(table, e, command)]];
      InstalledExcept(before, table, command, owned, todo - {e}, placed)
  {
  }

  lemma PlacedAll(before: Hooks, table: Table, command: string, owned: Option<string>, now: Hooks)
    requires InstalledExcept(before, table, command, owned, {}, now)
    ensures now == Installed(before, table, command, owned)
  {
    assert table.Keys - {} == table.Keys;
  }

  /** What makes the installer accept the settings, once it knows which command it owns. */
  ghost predicate Acceptable(hooks: Hooks, table: Table, owned: Option<string>, flagged: string -> bool) {
    (owned.Some? ==> ExistingValid(hooks, table, owned.value)) && Unreferenced(hooks, owned, flagged)
  }

  /** Which command the installer takes for its own: the manifest's, or a discovered one. */
  ghost predicate Owns(hooks: Hooks, table: Table, manifest: Option<string>, discovery: Option<string -> bool>, owned: Option<string>) {
    if manifest.None? && discovery.Some? then Discovery(hooks, table, discovery.value, owned) else owned == manifest
  }

  /** A host's settings as read from its file. */
  class Settings {
    var hooks: Hooks

    constructor (read: Hooks)
      ensures hooks == read
    {
      hooks := read;
    }

    /** Put the shadow groups in place. `discovery`, when there is one, tells which commands run the
        managed wrapper; it is used only without a manifest. */
    method PlanInstall(table: Table, command: string, manifest: Option<string>, discovery: Option<string -> bool>,
                       flagged: string -> bool)
      returns (result: Result<Option<string>>)
      requires table.Keys != {}
      modifies this
      ensures result.Refused? ==> hooks == old(hooks)
      ensures result.Refused? ==> forall owned ::
        Owns(old(hooks), table, manifest, discovery, owned) ==> !Acceptable(old(hooks), table, owned, flagged)
      ensures result.Ok? ==>
        && Owns(old(hooks), table, manifest, discovery, result.value)
        && Acceptable(old(hooks), table, result.value, flagged)
        && hooks == Installed(old(hooks), table, command, result.value)
      ensures result == Refused(Ambiguous) <==>
        manifest.None? && discovery.Some? && forall found :: !Discovery(old(hooks), table, discovery.value, found)
      ensures result == Refused(Collision) <==>
        exists owned :: Owns(old(hooks), table, manifest, discovery, owned) && owned.Some?
          && !ExistingValid(old(hooks), table, owned.value)
      ensures result == Refused(ForeignReference) <==>
        exists owned :: Owns(old(hooks), table, manifest, discovery, owned)
          && (owned.Some? ==> ExistingValid(old(hooks), table, owned.value)) && !Unreferenced(old(hooks), owned, flagged)
    {
      var owned := manifest;
      if owned.None? && discovery.Some? {
        var found := DiscoverOwnedCommand(hooks, table, discovery.value);
        if found.Refused? {
          return Refused(found.error);
        }
        owned := found.value;
        DiscoveryUnique(hooks, table, discovery.value, owned);
      }
      if owned.Some? {
        var valid := ValidateExistingShadowGroups(hooks, table, owned.value);
        if !valid {
          return Refused(Collision);
        }
      }
      var clear := ScanForeignCommands(hooks, owned, flagged);
      if !clear {
        return Refused(ForeignReference);
      }
      PlaceGroups(table, command, owned);
      result := Ok(owned);
    }

    method PlaceGroups(table: Table, command: string, owned: Option<string>)
      modifies this
      ensures hooks == Installed(old(hooks), table, command, owned)
    {
      ghost var before := hooks;
      var todo := table.Keys;
      while todo != {}
        invariant todo <= table.Keys
        invariant InstalledExcept(before, table, command, owned, todo, hooks)
        decreases |todo|
      {
        var event :| event in todo;
        PlaceOne(before, table, command, owned, todo, hooks, event);
        var groups := WithoutShadowGroups(GroupsOf(hooks, event), table, event, owned);
        hooks := hooks[event := groups + [ShadowGroup(table, event, command)]];
        todo := todo - {event};
      }
      PlacedAll(before, table, command, owned, hooks);
    }

    /** Take the owned groups out. `deleting` is present when the wrapper file goes too. */
    method PlanRemove(table: Table, manifest: Option<string>, discovery: Option<string -> bool>, deleting: Option<string -> bool>)
      returns (result: Result<()>)
      requires table.Keys != {}
      modifies this
      ensures result.Refused? ==> hooks == old(hooks)
      ensures result.Ok? <==>
        && (deleting.Some? ==> Unreferenced(old(hooks), manifest, deleting.value))
        && (manifest.None? && discovery.Some? ==> Discovery(old(hooks), table, discovery.value, None))
        && (manifest.Some? ==> ExistingValid(old(hooks), table, manifest.value))
      ensures result.Ok? ==> hooks == Removed(old(hooks), table, manifest)
      ensures result == Refused(ForeignReference) <==> deleting.Some? && !Unreferenced(old(hooks), manifest, deleting.value)
      ensures result.Refused? && result.error != ForeignReference && manifest.None? ==>
        && discovery.Some?
        && (result.error == Ambiguous <==> forall found :: !Discovery(old(hooks), table, discovery.value, found))
        && (result.error != Ambiguous ==>
              result.error == ManifestRequired && exists c :: Discovery(old(hooks), table, discovery.value, Some(c)))
      ensures result.Refused? && result.error != ForeignReference && manifest.Some? ==>
        result.error == Collision && !ExistingValid(old(hooks), table, manifest.value)
    {
      if deleting.Some? {
        var clear := ScanForeignCommands(hooks, manifest, deleting.value);
        if !clear {
          return Refused(ForeignReference);
        }
      }
      if manifest.None? && discovery.Some? {
        var found := DiscoverOwnedCommand(hooks, table, discovery.value);
        if found.Refused? {
          return Refused(found.error);
        }
        DiscoveryUnique(hooks, table, discovery.value, found.value);
        if found.value.Some? {
          return Refused(ManifestRequired);
        }
      }
      if manifest.Some? {
        var valid := ValidateExistingShadowGroups(hooks, table, manifest.value);
        if !valid {
          return Refused(Collision);
        }
      }
      TakeGroups(table, manifest);
      result := Ok(());
    }

    method TakeGroups(table: Table, owned: Option<string>)
      modifies this
      ensures hooks == Removed(old(hooks), table, owned)
    {
      ghost var before := hooks;
      var todo := table.Keys;
      while todo != {}
        invariant todo <= table.Keys
        invariant hooks.Keys == before.Keys
        invariant forall e :: e in hooks ==>
          hooks[e] == if e in table && e !in todo then Without(before[e], table, e, owned) else before[e]
        decreases |todo|
      {
        var event :| event in todo;
        if event in hooks {
          var groups := WithoutShadowGroups(hooks[event], table, event, owned);
          hooks := hooks[event := groups];
        }
        todo := todo - {event};
      }
    }
  }

  /** At most one discovery is possible. */
  lemma DiscoveryUnique(hooks: Hooks, table: Table, owns: string -> bool, found: Option<string>)
    requires table.Keys != {} && Discovery(hooks, table, owns, found)
    ensures forall other :: Discovery(hooks, table, owns, other) ==> other == found
  {
  }
}
