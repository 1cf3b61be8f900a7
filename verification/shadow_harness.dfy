/** Host JSON depth, checked with a worklist, and the project a working directory belongs to. */
module ShadowHarness {
  import opened Options
  import opened Canonical

  const MAX_HOST_JSON_DEPTH := 64

  // ----- nesting -----

  function Max(a: nat, b: nat): nat { if a < b then b else a }

  /** The values directly inside. */
  function Children(v: Value): seq<Value> {
    match v
    case List(elements) => elements
    case Dict(entries) => seq(|entries|, i requires 0 <= i < |entries| => entries[i].item)
    case _ => []
  }

  /** How deeply the deepest value inside is nested. */
  function Height(v: Value): nat
    decreases v
  {
    match v
    case List(elements) => HighestElement(elements)
    case Dict(entries) => HighestEntry(entries)
    case _ => 0
  }

  function HighestElement(elements: seq<Value>): nat
    decreases elements
  {
    if elements == [] then 0 else Max(1 + Height(elements[0]), HighestElement(elements[1..]))
  }

  function HighestEntry(entries: seq<Entry>): nat
    decreases entries
  {
    if entries == [] then 0
    else
      var first := entries[0];
      assert first.item < first;
      Max(1 + Height(first.item), HighestEntry(entries[1..]))
  }

  predicate AllFinite(v: Value)
    decreases v
  {
    match v
    case NonFinite => false
    case List(elements) => forall i :: 0 <= i < |elements| ==> AllFinite(elements[i])
    case Dict(entries) => forall i :: 0 <= i < |entries| ==> AllFinite(entries[i].item)
    case _ => true
  }

  /** A value waiting to be looked at, and how deep it lies. */
  type Waiting = (Value, nat)

  predicate Fits(w: Waiting) {
    w.1 + Height(w.0) <= MAX_HOST_JSON_DEPTH && AllFinite(w.0)
  }

  function Deeper(values: seq<Value>, depth: nat): seq<Waiting> {
    seq(|values|, i requires 0 <= i < |values| => (values[i], depth + 1))
  }

  predicate AllFit(pending: seq<Waiting>) {
    forall i :: 0 <= i < |pending| ==> Fits(pending[i])
  }

  lemma AllFitAppend(a: seq<Waiting>, b: seq<Waiting>)
    ensures AllFit(a + b) <==> AllFit(a) && AllFit(b)
  {
    if AllFit(a + b) {
      assert forall i :: 0 <= i < |a| ==> a[i] == (a + b)[i];
      assert forall i :: 0 <= i < |b| ==> b[i] == (a + b)[|a| + i];
    }
  }

  lemma {:induction false} HighestElementBounds(elements: seq<Value>, limit: int)
    ensures HighestElement(elements) <= limit <==> 0 <= limit && forall i :: 0 <= i < |elements| ==> 1 + Height(elements[i]) <= limit
  {
    if elements == [] {
    } else {
      HighestElementBounds(elements[1..], limit);
      assert forall i :: 0 < i < |elements| ==> elements[i] == elements[1..][i - 1];
    }
  }

  lemma {:induction false} HighestEntryBounds(entries: seq<Entry>, limit: int)
    ensures HighestEntry(entries) <= limit <==> 0 <= limit && forall i :: 0 <= i < |entries| ==> 1 + Height(entries[i].item) <= limit
  {
    if entries == [] {
    } else {
      HighestEntryBounds(entries[1..], limit);
      assert forall i :: 0 < i < |entries| ==> entries[i] == entries[1..][i - 1];
    }
  }

  /** A value fits when it is not too deep, is a finite number if a number, and its children fit. */
  lemma FitsUnfolds(w: Waiting)
    ensures Fits(w) <==>
      && w.1 <= MAX_HOST_JSON_DEPTH && w.0 != NonFinite
      && AllFit(Deeper(Children(w.0), w.1))
  {
    var limit := MAX_HOST_JSON_DEPTH - w.1;
    match w.0 {
      case List(elements) =>
        HighestElementBounds(elements, limit);
        assert forall i :: 0 <= i < |elements| ==> Deeper(elements, w.1)[i] == (elements[i], w.1 + 1);
      case Dict(entries) =>
        HighestEntryBounds(entries, limit);
        assert forall i :: 0 <= i < |entries| ==> Deeper(Children(w.0), w.1)[i] == (entries[i].item, w.1 + 1);
      case _ =>
    }
  }

  // ----- what the height counts -----

  /** The value found by going down through lists and dictionaries along these positions. */
  function Inside(v: Value, path: seq<nat>): Option<Value>
    decreases |path|
  {
    if path == [] then Option.Some(v)
    else
      match v
      case List(elements) => if path[0] < |elements| then Inside(elements[path[0]], path[1..]) else Option.None
      case Dict(entries) => if path[0] < |entries| then Inside(entries[path[0]].item, path[1..]) else Option.None
      case _ => Option.None
  }

  lemma {:induction false} ReachedIsWithin(v: Value, path: seq<nat>)
    requires Inside(v, path).Some?
    ensures |path| <= Height(v)
    decreases |path|
  {
    if path == [] {
    } else {
      match v {
        case List(elements) =>
          ReachedIsWithin(elements[path[0]], path[1..]);
          HighestElementBounds(elements, Height(v));
        case Dict(entries) =>
          ReachedIsWithin(entries[path[0]].item, path[1..]);
          HighestEntryBounds(entries, Height(v));
      }
    }
  }

  lemma {:induction false} DeepestIsReached(v: Value) returns (path: seq<nat>)
    ensures |path| == Height(v) && Inside(v, path).Some?
    decreases v, 0
  {
    path := [];
    match v {
      case List(elements) =>
        if elements != [] {
          path := DeepestElement(elements);
        }
      case Dict(entries) =>
        if entries != [] {
          path := DeepestEntry(entries);
        }
      case _ =>
    }
  }

  lemma {:induction false} DeepestElement(elements: seq<Value>) returns (path: seq<nat>)
    requires elements != []
    ensures path != [] && |path| == HighestElement(elements) && path[0] < |elements|
    ensures Inside(elements[path[0]], path[1..]).Some?
    decreases elements, 0
  {
    var first := DeepestIsReached(elements[0]);
    path := [0] + first;
    if HighestElement(elements[1..]) > 1 + Height(elements[0]) {
      var later := DeepestElement(elements[1..]);
      path := [later[0] + 1] + later[1..];
    }
  }

  lemma {:induction false} DeepestEntry(entries: seq<Entry>) returns (path: seq<nat>)
    requires entries != []
    ensures path != [] && |path| == HighestEntry(entries) && path[0] < |entries|
    ensures Inside(entries[path[0]].item, path[1..]).Some?
    decreases entries, 0
  {
    var head := entries[0];
    assert head.item < head;
    var first := DeepestIsReached(head.item);
    path := [0] + first;
    if HighestEntry(entries[1..]) > 1 + Height(head.item) {
      var later := DeepestEntry(entries[1..]);
      path := [later[0] + 1] + later[1..];
    }
  }

  /** The height is the length of the longest way down. */
  lemma HeightIsDepth(v: Value, limit: nat)
    ensures Height(v) <= limit <==> forall path :: Inside(v, path).Some? ==> |path| <= limit
  {
    forall path | Inside(v, path).Some? ensures |path| <= Height(v) {
      ReachedIsWithin(v, path);
    }
    var deepest := DeepestIsReached(v);
  }

  lemma {:induction false} FiniteInside(v: Value, path: seq<nat>)
    requires AllFinite(v)
    ensures Inside(v, path) != Option.Some(NonFinite)
    decreases |path|
  {
    if path == [] {
    } else {
      match v {
        case List(elements) => if path[0] < |elements| { FiniteInside(elements[path[0]], path[1..]); }
        case Dict(entries) => if path[0] < |entries| { FiniteInside(entries[path[0]].item, path[1..]); }
        case _ =>
      }
    }
  }

  lemma {:induction false} NonFiniteIsReached(v: Value) returns (path: seq<nat>)
    requires !AllFinite(v)
    ensures Inside(v, path) == Option.Some(NonFinite)
    decreases v
  {
    path := [];
    match v {
      case NonFinite =>
      case List(elements) =>
        var i :| 0 <= i < |elements| && !AllFinite(elements[i]);
        var rest := NonFiniteIsReached(elements[i]);
        path := [i] + rest;
      case Dict(entries) =>
        var i :| 0 <= i < |entries| && !AllFinite(entries[i].item);
        var entry := entries[i];
        assert entry.item < entry;
        var rest := NonFiniteIsReached(entry.item);
        path := [i] + rest;
    }
  }

  /** All floats are finite when none that is not lies anywhere inside. */
  lemma FiniteEverywhere(v: Value)
    ensures AllFinite(v) <==> forall path :: Inside(v, path) != Option.Some(NonFinite)
  {
    if AllFinite(v) {
      forall path ensures Inside(v, path) != Option.Some(NonFinite) {
        FiniteInside(v, path);
      }
    } else {
      var path := NonFiniteIsReached(v);
    }
  }

  // ----- the worklist gets shorter -----

  function Size(v: Value): nat
    decreases v
  {
    match v
    case List(elements) => 1 + ElementsSize(elements)
    case Dict(entries) => 1 + EntriesSize(entries)
    case _ => 1
  }

  function ElementsSize(elements: seq<Value>): nat
    decreases elements
  {
    if elements == [] then 0 else Size(elements[0]) + ElementsSize(elements[1..])
  }

  function EntriesSize(entries: seq<Entry>): nat
    decreases entries
  {
    if entries == [] then 0
    else
      var first := entries[0];
      assert first.item < first;
      Size(first.item) + EntriesSize(entries[1..])
  }

  ghost function Work(pending: seq<Waiting>): nat {
    if pending == [] then 0 else Work(pending[..|pending| - 1]) + Size(pending[|pending| - 1].0)
  }

  lemma {:induction false} WorkAppend(a: seq<Waiting>, b: seq<Waiting>)
    ensures Work(a + b) == Work(a) + Work(b)
  {
    if b == [] {
      assert a + b == a;
    } else {
      assert (a + b)[..|a + b| - 1] == a + b[..|b| - 1];
      WorkAppend(a, b[..|b| - 1]);
    }
  }

  lemma {:induction false} ElementsWork(elements: seq<Value>, depth: nat)
    ensures Work(Deeper(elements, depth)) == ElementsSize(elements)
  {
    if elements == [] {
    } else {
      var first := Deeper([elements[0]], depth);
      assert Deeper(elements, depth) == first + Deeper(elements[1..], depth);
      assert Work(first) == Work([]) + Size(elements[0]) by {
        assert first[..0] == [];
      }
      WorkAppend(first, Deeper(elements[1..], depth));
      ElementsWork(elements[1..], depth);
    }
  }

  lemma {:induction false} EntriesAreElements(entries: seq<Entry>)
    ensures ElementsSize(Children(Dict(entries))) == EntriesSize(entries)
  {
    if entries == [] {
    } else {
      assert Children(Dict(entries))[1..] == Children(Dict(entries[1..]));
      EntriesAreElements(entries[1..]);
    }
  }

  lemma ChildrenAreLessWork(v: Value, depth: nat)
    ensures Work(Deeper(Children(v), depth)) < Size(v)
  {
    ElementsWork(Children(v), depth);
    if v.Dict? {
      EntriesAreElements(v.entries);
    }
  }

  /** Accepted exactly when nothing is nested deeper than the limit and every float is finite. */
  method ValidateHostJsonDepth(payload: Value) returns (accepted: bool)
    ensures accepted <==> Height(payload) <= MAX_HOST_JSON_DEPTH && AllFinite(payload)
  {
    var pending: seq<Waiting> := [(payload, 0)];
    while pending != []
      invariant Fits((payload, 0)) <==> AllFit(pending)
      decreases Work(pending)
    {
      var last := |pending| - 1;
      var (value, depth) := pending[last];
      var rest := pending[..last];
      assert pending == rest + [pending[last]];
      AllFitAppend(rest, [pending[last]]);
      assert AllFit([pending[last]]) <==> Fits(pending[last]);
      FitsUnfolds(pending[last]);
      if depth > MAX_HOST_JSON_DEPTH {
        return false;
      }
      var inside := Deeper(Children(value), depth);
      WorkAppend(rest, inside);
      ChildrenAreLessWork(value, depth);
      if value.NonFinite? {
        return false;
      }
      AllFitAppend(rest, inside);
      pending := rest + inside;
    }
    accepted := true;
  }

  // ----- which project a directory belongs to -----

  type Path = seq<string>

  datatype Project = Project(root: Path, name: string)

  /** Inside `root`, or `root` itself. */
  predicate Within(path: Path, root: Path) { root <= path }

  /** The first of the projects with the longest root around the directory. */
  ghost predicate IsInnermost(projects: seq<Project>, cwd: Path, k: nat) {
    && k < |projects| && Within(cwd, projects[k].root)
    && forall i :: 0 <= i < |projects| && Within(cwd, projects[i].root) ==>
         |projects[i].root| <= |projects[k].root| && (projects[i].root == projects[k].root ==> k <= i)
  }

  method ProjectForCwd(projects: seq<Project>, cwd: Path) returns (found: Option<Project>)
    ensures found.None? <==> forall i :: 0 <= i < |projects| ==> !Within(cwd, projects[i].root)
    ensures found.Some? ==> exists k: nat :: IsInnermost(projects, cwd, k) && found.value == projects[k]
  {
    found := Option.None;
    ghost var k := 0;
    var i := 0;
    while i < |projects|
      invariant i <= |projects|
      invariant found.None? ==> forall j :: 0 <= j < i ==> !Within(cwd, projects[j].root)
      invariant found.Some? ==> IsInnermost(projects[..i], cwd, k) && found.value == projects[k]
    {
      if Within(cwd, projects[i].root) && (found.None? || |found.value.root| < |projects[i].root|) {
        found := Some(projects[i]);
        k := i;
      }
      i := i + 1;
    }
    assert projects[..i] == projects;
  }
}
