/** Address Vectors as a flood accumulates them: each router that takes a copy appends its own address. */
module FloodPaths {
  import opened RplTypes
  import opened Paths

  type Path = seq<Address>

  /** Each address was heard by the next over a link in `links`. */
  predicate Linked(p: Path, links: set<(Address, Address)>) {
    forall i :: 0 < i < |p| ==> (p[i - 1], p[i]) in links
  }

  /** A vector describing a simple path from the flood's root to `x`. */
  predicate PathTo(root: Address, x: Address, vector: Path, links: set<(Address, Address)>) {
    && vector != [] && vector[|vector| - 1] == x
    && RepeatFree([root] + vector) && Linked([root] + vector, links)
  }

  datatype Copy = Copy(sender: Address, vector: Path)

  /** The routers' own vectors, the further routes some keep and may send instead, every copy sent so far (any of which
      may yet arrive anywhere, once, often or never), and the links over which one has arrived. */
  datatype Net = Net(
    root: Address, vectors: map<Address, Path>, kept: set<Copy>, sent: set<Copy>, links: set<(Address, Address)>)

  /** What a router may make of a copy: leave its vector alone, leave the flood, or take the vector heard with its own
      address appended, unless that is in it already. */
  predicate Took(own: Address, before: Option<Path>, heard: Path, after: Option<Path>) {
    after == before || after == None || (own !in heard && after == Some(heard + [own]))
  }

  datatype Event =
    | Sends(x: Address)
    | SendsKept(copy: Copy)
    | Hears(x: Address, copy: Copy, after: Option<Path>)
    | Keeps(x: Address, copy: Copy)
    | Leaves(x: Address)

  function VectorAt(n: Net, x: Address): Option<Path> {
    if x in n.vectors then Some(n.vectors[x]) else None
  }

  predicate Enabled(n: Net, e: Event) {
    match e
    case Sends(x) => x == n.root || x in n.vectors
    case SendsKept(copy) => copy in n.kept
    case Hears(x, copy, after) => x != n.root && copy in n.sent && Took(x, VectorAt(n, x), copy.vector, after)
    case Keeps(x, copy) => x != n.root && copy in n.sent && x !in copy.vector
    case Leaves(x) => true
  }

  function Step(n: Net, e: Event): Net {
    match e
    case Sends(x) => n.(sent := n.sent + {Copy(x, if x in n.vectors then n.vectors[x] else [])})
    case SendsKept(copy) => n.(sent := n.sent + {copy})
    case Hears(x, copy, after) =>
      n.(vectors := if after.Some? then n.vectors[x := after.value] else n.vectors - {x},
         links := n.links + {(copy.sender, x)})
    case Keeps(x, copy) => n.(kept := n.kept + {Copy(x, copy.vector + [x])}, links := n.links + {(copy.sender, x)})
    case Leaves(x) => n.(vectors := n.vectors - {x})
  }

  predicate Possible(n: Net, run: seq<Event>)
    decreases |run|
  {
    run == [] || (Enabled(n, run[0]) && Possible(Step(n, run[0]), run[1..]))
  }

  function After(n: Net, run: seq<Event>): Net
    decreases |run|
  {
    if run == [] then n else After(Step(n, run[0]), run[1..])
  }

  /** Copies from the root carry the empty vector; all others a simple path from the root to their sender. */
  predicate SoundCopy(root: Address, c: Copy, links: set<(Address, Address)>) {
    if c.sender == root then c.vector == [] else PathTo(root, c.sender, c.vector, links)
  }

  ghost predicate Sound(n: Net) {
    && n.root !in n.vectors
    && (forall x :: x in n.vectors ==> PathTo(n.root, x, n.vectors[x], n.links))
    && (forall c :: c in n.sent ==> SoundCopy(n.root, c, n.links))
    && (forall c :: c in n.kept ==> PathTo(n.root, c.sender, c.vector, n.links))
  }

  lemma MoreLinks(root: Address, x: Address, v: Path, links: set<(Address, Address)>, more: set<(Address, Address)>)
    requires PathTo(root, x, v, links) && links <= more
    ensures PathTo(root, x, v, more)
  {
  }

  /** Appending the router that heard a copy extends its path by the link it was heard over. */
  lemma Extends(root: Address, c: Copy, x: Address, links: set<(Address, Address)>)
    requires SoundCopy(root, c, links) && x != root && x !in c.vector
    ensures PathTo(root, x, c.vector + [x], links + {(c.sender, x)})
  {
    var p, q := [root] + c.vector, [root] + (c.vector + [x]);
    assert q == p + [x];
    assert p[|p| - 1] == c.sender;
    assert forall i :: 0 <= i < |p| ==> p[i] != x;
    assert RepeatFree(p) && Linked(p, links);
  }

  lemma StepIsSound(n: Net, e: Event)
    requires Sound(n) && Enabled(n, e)
    ensures Sound(Step(n, e))
  {
    var n' := Step(n, e);
    match e
    case Sends(x) =>
    case SendsKept(copy) =>
      var p := [n.root] + copy.vector;
      assert p[0] == n.root && p[|copy.vector|] == copy.sender;
    case Leaves(x) =>
    case Hears(x, copy, after) =>
      LinksGrow(n, n'.links);
      if x !in copy.vector {
        Extends(n.root, copy, x, n.links);
      }
    case Keeps(x, copy) =>
      LinksGrow(n, n'.links);
      Extends(n.root, copy, x, n.links);
  }

  lemma LinksGrow(n: Net, more: set<(Address, Address)>)
    requires Sound(n) && n.links <= more
    ensures Sound(n.(links := more))
  {
    forall x | x in n.vectors ensures PathTo(n.root, x, n.vectors[x], more) {
      MoreLinks(n.root, x, n.vectors[x], n.links, more);
    }
    forall c | c in n.sent ensures SoundCopy(n.root, c, more) {
      if c.sender != n.root { MoreLinks(n.root, c.sender, c.vector, n.links, more); }
    }
    forall c | c in n.kept ensures PathTo(n.root, c.sender, c.vector, more) {
      MoreLinks(n.root, c.sender, c.vector, n.links, more);
    }
  }

  lemma {:induction false} RunIsSound(n: Net, run: seq<Event>)
    requires Sound(n) && Possible(n, run)
    ensures Sound(After(n, run))
    decreases |run|
  {
    if run != [] {
      StepIsSound(n, run[0]);
      RunIsSound(Step(n, run[0]), run[1..]);
    }
  }

  /** In any run of a flood, whatever is lost, repeated or reordered, every vector in flight or kept is a simple path
      from the root to its sender over links that delivered. */
  lemma VectorsAreSimplePaths(root: Address, run: seq<Event>)
    requires Possible(Net(root, map[], {}, {}, {}), run)
    ensures Sound(After(Net(root, map[], {}, {}, {}), run))
  {
    RunIsSound(Net(root, map[], {}, {}, {}), run);
  }
}
