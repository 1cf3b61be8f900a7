/** Leases as the objects the installer holds: their fields change as steps run, and
    every method does exactly what the step functions of `ConfinedIo` say. */
module LeaseObjects {
  import opened Options
  import Io = ConfinedIo

  /** The machine the program runs on: its disk, what is about to happen, what we did. */
  class Machine {
    var disk: Io.Disk
    var schedule: seq<Io.Event>
    var log: seq<Io.Change>

    constructor (w: Io.World)
      ensures World() == w
    {
      disk, schedule, log := w.disk, w.schedule, w.log;
    }

    function World(): Io.World
      reads this
    {
      Io.World(disk, schedule, log)
    }

    /** Outsiders edit the disk one by one, then the fate of our next step is drawn. */
    method Tick() returns (fate: Io.Fate)
      modifies this
      ensures (World(), fate) == Io.Tick(old(World()))
    {
      if schedule == [] {
        return Io.Proceeds;
      }
      var edits := schedule[0].edits;
      fate, schedule := schedule[0].fate, schedule[1..];
      while edits != []
        invariant Io.Meddled(disk, edits) == Io.Meddled(old(disk), old(schedule)[0].edits)
        invariant schedule == old(schedule)[1..] && log == old(log) && fate == old(schedule)[0].fate
        decreases |edits|
      {
        match edits[0] {
          case Write(p, content, inode) =>
            disk := Io.Disk(disk.files[p := Io.Node(content, inode, disk.clock)], disk.clock + 1);
          case Delete(p) =>
            disk := Io.Disk(disk.files - {p}, disk.clock + 1);
        }
        edits := edits[1..];
      }
    }
  }

  class ConfinedFileLease {
    const machine: Machine
    const path: Io.Path
    var content: Option<Io.Content>
    var identity: Option<nat>

    function View(): Io.Lease
      reads this
    {
      Io.Lease(path, if content.Some? && identity.Some? then Some(Io.Seen(content.value, identity.value)) else None)
    }

    predicate Whole()
      reads this
    {
      content.Some? <==> identity.Some?
    }

    /** Observe a path once and retain what was seen there. */
    constructor (machine: Machine, path: Io.Path)
      ensures this.machine == machine && this.path == path
      ensures Whole() && View() == Io.Look(machine.disk, path)
    {
      this.machine, this.path := machine, path;
      if path in machine.disk.files {
        content, identity := Some(machine.disk.files[path].content), Some(machine.disk.files[path].inode);
      } else {
        content, identity := None, None;
      }
    }

    /** Whether the path still shows the retained identity and bytes. */
    method StillCurrent() returns (current: bool)
      requires Whole()
      ensures current == Io.Current(machine.disk, View())
    {
      if path !in machine.disk.files {
        return identity == None;
      }
      var node := machine.disk.files[path];
      return identity == Some(node.inode) && content == Some(node.content);
    }

    method AssertCurrent() returns (signal: Io.Signal)
      requires Whole()
      modifies machine
      ensures Io.Step(machine.World(), View(), signal) == Io.AssertCurrent(old(machine.World()), old(View()))
    {
      var fate := machine.Tick();
      if fate.Proceeds? {
        var current := StillCurrent();
        return if current then Io.Done else Io.Raised;
      }
      return Io.SignalOf(fate);
    }

    method PublicationFingerprint() returns (signal: Io.Signal, fingerprint: Option<Io.Fingerprint>)
      requires Whole()
      modifies machine
      ensures (Io.Step(machine.World(), View(), signal), fingerprint)
           == Io.FingerprintOf(old(machine.World()), old(View()))
    {
      signal := AssertCurrent();
      fingerprint := None;
      if signal == Io.Done {
        if identity == None {
          signal := Io.Raised;
        } else {
          var node := machine.disk.files[path];
          fingerprint := Some(Io.Fingerprint(node.inode, node.stamp));
        }
      }
    }

    method Replace(data: Io.Content) returns (signal: Io.Signal)
      requires Whole()
      modifies this, machine
      ensures Whole()
      ensures Io.Step(machine.World(), View(), signal) == Io.Replace(old(machine.World()), old(View()), data)
    {
      var fate := machine.Tick();
      if fate.Crashes? {
        return Io.Crashed;
      }
      var current := StillCurrent();
      if !current || (fate.Fails? && !fate.published) {
        return Io.Raised;
      }
      var inode := machine.disk.clock;
      var node := Io.Node(data, inode, inode);
      machine.log := machine.log + [Io.Change(path, Io.NodeAt(machine.disk, path), Some(node))];
      machine.disk := Io.Disk(machine.disk.files[path := node], inode + 1);
      if fate.Proceeds? || fate.refreshed {
        content, identity := Some(data), Some(inode);
      }
      return if fate.Proceeds? then Io.Done else Io.Raised;
    }

    method Remove() returns (signal: Io.Signal)
      requires Whole()
      modifies this, machine
      ensures Whole()
      ensures Io.Step(machine.World(), View(), signal) == Io.Remove(old(machine.World()), old(View()))
    {
      var fate := machine.Tick();
      if fate.Crashes? {
        return Io.Crashed;
      }
      var current := StillCurrent();
      if identity == None || !current || (fate.Fails? && !fate.published) {
        return Io.Raised;
      }
      machine.log := machine.log + [Io.Change(path, Io.NodeAt(machine.disk, path), None)];
      machine.disk := Io.Disk(machine.disk.files - {path}, machine.disk.clock + 1);
      if fate.Proceeds? || fate.refreshed {
        content, identity := None, None;
      }
      return if fate.Proceeds? then Io.Done else Io.Raised;
    }
  }

  method LeaseConfinedFile(machine: Machine, path: Io.Path) returns (lease: ConfinedFileLease, signal: Io.Signal)
    modifies machine
    ensures fresh(lease) && lease.machine == machine && lease.path == path && lease.Whole()
    ensures Io.Step(machine.World(), lease.View(), signal) == Io.Open(old(machine.World()), path)
  {
    var fate := machine.Tick();
    lease := new ConfinedFileLease(machine, path);
    signal := Io.SignalOf(fate);
  }
}
