/** The file system as the installer sees it through confined leases.

    A `World` is a disk, a schedule of what happens around each of our own steps,
    and a log of the mutations this program made.  Before every step the schedule
    lets outsiders edit the disk, then decides whether the step runs, fails, or is
    never reached because the process dies.  A lease's "assert, then mutate" is one
    atomic step: the source declares the remaining window out of scope. */
module ConfinedIo {
  import opened Options
  import opened Hosts

  /** The four files managed for each host. */
  datatype ManagedFile = Settings | Config | Ownership | Wrapper

  datatype Path =
    | Managed(host: Host, file: ManagedFile)
    | Backup(host: Host, file: ManagedFile, tag: string)
    | JournalPath
    | Elsewhere(name: string)

  /** A digest is a free constructor over the bytes it covers, hence injective. */
  datatype Digest = Sha256(content: Content)

  /** File bytes: either the encoding of a journal document, or any other bytes. */
  datatype Content = Raw(bytes: seq<bv8>) | Encoded(journal: Journal)

  datatype PublicationState = Planned | Attempted | Confirmed | Revoked | NotApplicable

  /** Local identity plus change stamp of a created file. */
  datatype Fingerprint = Fingerprint(inode: nat, stamp: nat)

  /** Which publication fields a journal entry carries; `Identified` is the current schema. */
  datatype Provenance =
    | Bare
    | LegacyFlag(confirmed: bool)
    | LegacyState(state: Option<PublicationState>)
    | Identified(state: Option<PublicationState>, identity: Option<Fingerprint>)

  datatype Entry = Entry(
    path: Path,
    before: Option<Digest>,
    after: Option<Digest>,
    backup: Option<Path>,
    provenance: Provenance)

  datatype Journal = Journal(schema: int, operation: string, tag: string, entries: seq<Entry>)

  function DigestOf(content: Option<Content>): Option<Digest> {
    match content
    case None => None
    case Some(c) => Some(Sha256(c))
  }

  // ----- disk and outsiders -----

  datatype Node = Node(content: Content, inode: nat, stamp: nat)

  datatype Disk = Disk(files: map<Path, Node>, clock: nat)

  function ContentAt(files: map<Path, Node>, p: Path): Option<Content> {
    if p in files then Some(files[p].content) else None
  }

  function Put(d: Disk, p: Path, content: Content, inode: nat): Disk {
    Disk(d.files[p := Node(content, inode, d.clock)], d.clock + 1)
  }

  function Dropped(d: Disk, p: Path): Disk {
    Disk(d.files - {p}, d.clock + 1)
  }

  /** What an outsider may do: write any bytes under any inode, or remove a file.
      The change stamp is the one thing an outsider does not choose. */
  datatype Edit = Write(path: Path, content: Content, inode: nat) | Delete(path: Path)

  function Meddled(d: Disk, edits: seq<Edit>): Disk
    decreases |edits|
  {
    if edits == [] then d
    else
      var d1 := match edits[0]
        case Write(p, c, i) => Put(d, p, c, i)
        case Delete(p) => Dropped(d, p);
      Meddled(d1, edits[1..])
  }

  /** `Fails(published, refreshed)`: the step raises; its effect may already be on disk,
      and the lease may or may not have been refreshed to it. */
  datatype Fate = Proceeds | Crashes | Fails(published: bool, refreshed: bool)

  datatype Event = Event(edits: seq<Edit>, fate: Fate)

  /** One mutation made by this program: what the path held, and what it holds now. */
  datatype Change = Change(path: Path, prior: Option<Node>, next: Option<Node>)

  datatype World = World(disk: Disk, schedule: seq<Event>, log: seq<Change>)

  datatype Signal = Done | Raised | Crashed

  function NodeAt(d: Disk, p: Path): Option<Node> {
    if p in d.files then Some(d.files[p]) else None
  }

  /** Let outsiders act, then learn the fate of our next step. */
  function Tick(w: World): (World, Fate) {
    if w.schedule == [] then (w, Proceeds)
    else (World(Meddled(w.disk, w.schedule[0].edits), w.schedule[1..], w.log), w.schedule[0].fate)
  }

  function SignalOf(fate: Fate): Signal {
    match fate
    case Proceeds => Done
    case Crashes => Crashed
    case Fails(_, _) => Raised
  }

  // ----- leases -----

  datatype Seen = Seen(content: Content, inode: nat)

  /** What a lease retains: the path, and the bytes and identity observed there. */
  datatype Lease = Lease(path: Path, seen: Option<Seen>)

  function LeaseContent(l: Lease): Option<Content> {
    match l.seen
    case None => None
    case Some(s) => Some(s.content)
  }

  function Look(d: Disk, p: Path): Lease {
    Lease(p, if p in d.files then Some(Seen(d.files[p].content, d.files[p].inode)) else None)
  }

  /** The path still holds the observed bytes under the observed identity. */
  predicate Current(d: Disk, l: Lease) {
    Look(d, l.path) == l
  }

  datatype Step = Step(w: World, lease: Lease, signal: Signal)

  function Open(w: World, p: Path): Step {
    var (w1, fate) := Tick(w);
    Step(w1, Look(w1.disk, p), SignalOf(fate))
  }

  function AssertCurrent(w: World, l: Lease): Step {
    var (w1, fate) := Tick(w);
    Step(w1, l, if fate.Proceeds? && !Current(w1.disk, l) then Raised else SignalOf(fate))
  }

  /** Identity and stamp read through the held handle; unavailable for an absent file. */
  function FingerprintOf(w: World, l: Lease): (Step, Option<Fingerprint>) {
    var s := AssertCurrent(w, l);
    if s.signal != Done then (s, None)
    else if l.seen.None? then (s.(signal := Raised), None)
    else (s, Some(Fingerprint(s.w.disk.files[l.path].inode, s.w.disk.files[l.path].stamp)))
  }

  function Commit(w: World, p: Path, d: Disk): World {
    World(d, w.schedule, w.log + [Change(p, NodeAt(w.disk, p), NodeAt(d, p))])
  }

  /** Perform a mutation under a lease: assert it is current, then make the disk `d`. */
  function Mutate(w: World, fate: Fate, l: Lease, d: Disk): Step {
    if fate.Crashes? then Step(w, l, Crashed)
    else if !Current(w.disk, l) || (fate.Fails? && !fate.published) then Step(w, l, Raised)
    else
      var w1 := Commit(w, l.path, d);
      if fate.Fails? then Step(w1, if fate.refreshed then Look(d, l.path) else l, Raised)
      else Step(w1, Look(d, l.path), Done)
  }

  function Replace(w: World, l: Lease, content: Content): Step {
    var (w1, fate) := Tick(w);
    Mutate(w1, fate, l, Put(w1.disk, l.path, content, w1.disk.clock))
  }

  function Remove(w: World, l: Lease): Step {
    var (w1, fate) := Tick(w);
    if l.seen.None? then Step(w1, l, if fate.Crashes? then Crashed else Raised)
    else Mutate(w1, fate, l, Dropped(w1.disk, l.path))
  }

  // ----- worlds without outsiders -----

  /** Nobody edits the disk but us; crashes and failures stay possible anywhere. */
  ghost predicate Quiet(w: World) {
    forall i :: 0 <= i < |w.schedule| ==> w.schedule[i].edits == []
  }

  lemma QuietTick(w: World)
    requires Quiet(w)
    ensures Tick(w).0.disk == w.disk && Quiet(Tick(w).0) && Tick(w).0.log == w.log
  {
  }

  /** In a quiet world a replacement either leaves the disk alone or publishes exactly
      the requested bytes over a current lease; success means it was published. */
  lemma QuietReplace(w: World, l: Lease, content: Content)
    requires Quiet(w)
    ensures var s := Replace(w, l, content);
      && Quiet(s.w) && s.lease.path == l.path
      && (s.w.disk == w.disk
          || (Current(w.disk, l) && s.w.disk == Put(w.disk, l.path, content, w.disk.clock)))
      && (s.signal == Done ==>
            Current(w.disk, l) && Current(s.w.disk, s.lease)
            && s.w.disk == Put(w.disk, l.path, content, w.disk.clock))
      && (s.signal == Crashed ==> s.w.disk == w.disk)
  {
    QuietTick(w);
  }

  lemma QuietRemove(w: World, l: Lease)
    requires Quiet(w)
    ensures var s := Remove(w, l);
      && Quiet(s.w) && s.lease.path == l.path
      && (s.w.disk == w.disk
          || (Current(w.disk, l) && l.seen.Some? && s.w.disk == Dropped(w.disk, l.path)))
      && (s.signal == Done ==>
            Current(w.disk, l) && l.seen.Some? && Current(s.w.disk, s.lease)
            && s.w.disk == Dropped(w.disk, l.path))
      && (s.signal == Crashed ==> s.w.disk == w.disk)
  {
    QuietTick(w);
  }
}
