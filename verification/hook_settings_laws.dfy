/** Installing and removing shadow groups never touches anyone else's. */
module HookSettingsLaws {
  import opened Options
  import opened HookSettings

  /** Both hosts have the same three events, so removal, which goes over the events of both, goes
      over exactly its own host's. */
  lemma HostsShareEvents()
    ensures CodexEvents().Keys == ClaudeEvents().Keys == {"SessionStart", "PreToolUse", "PostToolUse"}
  {
  }

  // ----- one event -----

  lemma {:induction false} WithoutAppend(s: seq<Group>, t: seq<Group>, table: Table, e: string, owned: Option<string>)
    requires e in table
    ensures Without(s + t, table, e, owned) == Without(s, table, e, owned) + Without(t, table, e, owned)
  {
    if s == [] {
      assert s + t == t;
    } else {
      assert (s + t)[0] == s[0] && (s + t)[1..] == s[1..] + t;
      WithoutAppend(s[1..], t, table, e, owned);
    }
  }

  lemma {:induction false} WithoutNone(s: seq<Group>, table: Table, e: string, owned: Option<string>)
    requires e in table && forall i :: 0 <= i < |s| ==> !IsOwned(s[i], table, e, owned)
    ensures Without(s, table, e, owned) == s
  {
    if s == [] {
    } else {
      WithoutNone(s[1..], table, e, owned);
      assert s == [s[0]] + s[1..];
    }
  }

  /** Which groups are left, and that none of the owned ones is. */
  lemma {:induction false} WithoutAre(s: seq<Group>, table: Table, e: string, owned: Option<string>)
    requires e in table
    ensures forall g :: g in Without(s, table, e, owned) <==> g in s && !IsOwned(g, table, e, owned)
  {
    if s == [] {
    } else {
      WithoutAre(s[1..], table, e, owned);
      assert s == [s[0]] + s[1..];
    }
  }

  lemma ShadowGroupHas(table: Table, e: string, command: string, c: string)
    requires e in table
    ensures HasCommand(ShadowGroup(table, e, command), c) <==> c == command
  {
    var g := ShadowGroup(table, e, command);
    assert g.handlers[0].command == Some(command);
  }

  /** How many groups of an event carry the command. */
  function Carriers(s: seq<Group>, command: string): nat {
    if s == [] then 0 else (if HasCommand(s[0], command) then 1 else 0) + Carriers(s[1..], command)
  }

  lemma {:induction false} NoCarriers(s: seq<Group>, command: string)
    requires forall i :: 0 <= i < |s| ==> !HasCommand(s[i], command)
    ensures Carriers(s, command) == 0
  {
    if s == [] {
    } else {
      NoCarriers(s[1..], command);
    }
  }

  lemma {:induction false} CarriersAppend(s: seq<Group>, g: Group, command: string)
    ensures Carriers(s + [g], command) == Carriers(s, command) + if HasCommand(g, command) then 1 else 0
  {
    if s == [] {
      assert s + [g] == [g];
    } else {
      assert (s + [g])[1..] == s[1..] + [g];
      CarriersAppend(s[1..], g, command);
    }
  }

  // ----- everyone else's groups -----

  /** What is left of an event once the installer's own groups are taken out. */
  function Foreign(hooks: Hooks, table: Table, owned: Option<string>, e: string): seq<Group> {
    if e in table then Without(GroupsOf(hooks, e), table, e, owned) else GroupsOf(hooks, e)
  }

  /** Once accepted, nobody else's group carries a flagged command. */
  lemma ForeignIsClear(hooks: Hooks, table: Table, owned: Option<string>, flagged: string -> bool, e: string, g: Group, c: string)
    requires Acceptable(hooks, table, owned, flagged) && g in Foreign(hooks, table, owned, e) && flagged(c)
    ensures !HasCommand(g, c)
  {
    var groups := GroupsOf(hooks, e);
    if e in table {
      WithoutAre(groups, table, e, owned);
    }
    assert g in groups && e in hooks;
    var i :| 0 <= i < |groups| && groups[i] == g;
    assert GroupsUnreferenced(hooks[e], owned, flagged);
    if owned == Some(c) {
      assert EventValid(hooks[e], table, e, c);
      assert GroupValid(groups[i], table, e, c);
    }
  }

  /** Nobody else's group carries the command. */
  ghost predicate Unused(hooks: Hooks, table: Table, owned: Option<string>, command: string) {
    forall e, g :: g in Foreign(hooks, table, owned, e) ==> !HasCommand(g, command)
  }

  /** So it is when the settings were accepted and the scan flags the command. */
  lemma FlaggedIsUnused(hooks: Hooks, table: Table, owned: Option<string>, flagged: string -> bool, command: string)
    requires Acceptable(hooks, table, owned, flagged) && flagged(command)
    ensures Unused(hooks, table, owned, command)
  {
    forall e, g | g in Foreign(hooks, table, owned, e) ensures !HasCommand(g, command) {
      ForeignIsClear(hooks, table, owned, flagged, e, g, command);
    }
  }

  /** An install leaves exactly one group with its command in each of its events, none anywhere
      else, and everyone else's groups as they were, in order. */
  lemma InstallKeepsForeign(hooks: Hooks, table: Table, command: string, owned: Option<string>)
    requires Unused(hooks, table, owned, command)
    ensures
      var after := Installed(hooks, table, command, owned);
      && (forall e :: Foreign(after, table, Some(command), e) == Foreign(hooks, table, owned, e))
      && (forall e :: e in table ==> e in after && after[e] == Foreign(hooks, table, owned, e) + [ShadowGroup(table, e, command)])
      && (forall e :: Carriers(GroupsOf(after, e), command) == if e in table then 1 else 0)
  {
    var after := Installed(hooks, table, command, owned);
    forall e
      ensures Foreign(after, table, Some(command), e) == Foreign(hooks, table, owned, e)
      ensures Carriers(GroupsOf(after, e), command) == if e in table then 1 else 0
    {
      var others := Foreign(hooks, table, owned, e);
      forall i | 0 <= i < |others| ensures !HasCommand(others[i], command) {
        assert others[i] in others;
      }
      NoCarriers(others, command);
      if e in table {
        var own := ShadowGroup(table, e, command);
        ShadowGroupHas(table, e, command, command);
        WithoutAppend(others, [own], table, e, Some(command));
        WithoutNone(others, table, e, Some(command));
        assert Without([own], table, e, Some(command)) == [];
        CarriersAppend(others, own, command);
      }
    }
  }

  /** The group an install adds to an event comes last: its one handler runs the command, under the
      event's own matcher. */
  lemma InstalledGroupIs(hooks: Hooks, table: Table, command: string, owned: Option<string>, e: string)
    requires e in table
    ensures var after := Installed(hooks, table, command, owned);
      e in after && after[e] != []
      && after[e][|after[e]| - 1] == Group([Handler(Some(command), ShadowHandler)], Matcher(table[e]))
  {
  }

  /** What an accepted install leaves is accepted again. */
  lemma InstallStaysAcceptable(hooks: Hooks, table: Table, command: string, owned: Option<string>, flagged: string -> bool)
    requires Acceptable(hooks, table, owned, flagged) && Unused(hooks, table, owned, command)
    ensures Acceptable(Installed(hooks, table, command, owned), table, Some(command), flagged)
  {
    var after := Installed(hooks, table, command, owned);
    forall e | e in after ensures EventValid(after[e], table, e, command) && GroupsUnreferenced(after[e], Some(command), flagged) {
      var others := Foreign(hooks, table, owned, e);
      assert forall i :: 0 <= i < |others| ==> others[i] in others;
      forall i, c | 0 <= i < |others| && flagged(c) ensures !HasCommand(others[i], c) {
        ForeignIsClear(hooks, table, owned, flagged, e, others[i], c);
      }
      if e in table {
        forall c ensures HasCommand(ShadowGroup(table, e, command), c) <==> c == command {
          ShadowGroupHas(table, e, command, c);
        }
      }
    }
  }

  lemma InstalledTwice(hooks: Hooks, table: Table, command: string, e: string)
    requires e in hooks && (e in table ==> hooks[e] == Foreign(hooks, table, Some(command), e) + [ShadowGroup(table, e, command)])
    ensures e in Installed(hooks, table, command, Some(command)) && Installed(hooks, table, command, Some(command))[e] == hooks[e]
  {
  }

  /** Installing the same command again is accepted and changes nothing. */
  lemma ReinstallChangesNothing(hooks: Hooks, table: Table, command: string, owned: Option<string>, flagged: string -> bool)
    requires Acceptable(hooks, table, owned, flagged) && Unused(hooks, table, owned, command)
    ensures
      var after := Installed(hooks, table, command, owned);
      Acceptable(after, table, Some(command), flagged) && Installed(after, table, command, Some(command)) == after
  {
    InstallKeepsForeign(hooks, table, command, owned);
    InstallStaysAcceptable(hooks, table, command, owned, flagged);
    var after := Installed(hooks, table, command, owned);
    assert after.Keys + table.Keys == after.Keys;
    forall e | e in after ensures Installed(after, table, command, Some(command))[e] == after[e] {
      InstalledTwice(after, table, command, e);
    }
  }

  /** Removing is accepted after an install, and gives back everyone else's groups; an event that
      was missing is now there and empty. */
  lemma RemoveUndoesInstall(hooks: Hooks, table: Table, command: string, owned: Option<string>, flagged: string -> bool)
    requires Acceptable(hooks, table, owned, flagged) && Unused(hooks, table, owned, command)
    ensures
      var after := Installed(hooks, table, command, owned);
      && Acceptable(after, table, Some(command), flagged)
      && Removed(after, table, Some(command)).Keys == hooks.Keys + table.Keys
      && forall e :: e in hooks.Keys + table.Keys ==> Removed(after, table, Some(command))[e] == Foreign(hooks, table, owned, e)
  {
    InstallKeepsForeign(hooks, table, command, owned);
    InstallStaysAcceptable(hooks, table, command, owned, flagged);
    var after := Installed(hooks, table, command, owned);
    assert Removed(after, table, Some(command)).Keys == after.Keys == hooks.Keys + table.Keys;
    forall e | e in after ensures Removed(after, table, Some(command))[e] == Foreign(hooks, table, owned, e) {
      assert Foreign(after, table, Some(command), e) == Foreign(hooks, table, owned, e);
    }
  }
}
