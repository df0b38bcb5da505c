/** Resolving module references between flow files: a coloured depth-first walk. */
module ModuleResolution {
  import opened References
  import opened Graphs

  /** What a module node refers to; modulePath tells a flow id, a path in the library, and a path outside it. */
  datatype Ref = NoModule | FlowId(id: string) | Outside(text: string) | FileRef(path: Id)

  /** A node: what it refers to as a module, or the body of its poll or loop. */
  datatype Node = Node(ref: Ref, body: seq<Node>)

  datatype Mark = Visiting | Done

  datatype Problem = Cycle(chain: seq<Id>) | OutsideLibrary(file: Id) | NoSuchFile(file: Id, path: Id)

  type Files = map<Id, seq<Node>>

  // ---- The graph of file references

  ghost predicate NodeMentions(n: Node, ref: Ref)
    decreases n
  {
    n.ref == ref || Mentions(n.body, ref)
  }

  /** Some node of the list, or of a body nested in it, has the reference. */
  ghost predicate Mentions(nodes: seq<Node>, ref: Ref)
    decreases nodes
  {
    exists i :: 0 <= i < |nodes| && NodeMentions(nodes[i], ref)
  }

  /** The node found by going down through bodies. */
  function NodeAt(nodes: seq<Node>, path: seq<nat>): Option<Node>
    decreases |path|
  {
    if path == [] || path[0] >= |nodes| then None
    else if |path| == 1 then Some(nodes[path[0]])
    else NodeAt(nodes[path[0]].body, path[1..])
  }

  ghost predicate MentionsAt(nodes: seq<Node>, path: seq<nat>, ref: Ref) {
    NodeAt(nodes, path).Some? && NodeAt(nodes, path).value.ref == ref
  }

  lemma {:induction false} MentionedAtDepth(nodes: seq<Node>, path: seq<nat>, ref: Ref)
    requires MentionsAt(nodes, path, ref)
    ensures Mentions(nodes, ref)
    decreases |path|
  {
    if |path| > 1 { MentionedAtDepth(nodes[path[0]].body, path[1..], ref); }
    assert NodeMentions(nodes[path[0]], ref);
  }

  lemma {:induction false} DepthOfMention(nodes: seq<Node>, ref: Ref) returns (path: seq<nat>)
    requires Mentions(nodes, ref)
    ensures MentionsAt(nodes, path, ref)
    decreases nodes
  {
    var i: nat :| i < |nodes| && NodeMentions(nodes[i], ref);
    if nodes[i].ref == ref {
      path := [i];
    } else {
      var rest := DepthOfMention(nodes[i].body, ref);
      path := [i] + rest;
      assert path[1..] == rest;
    }
  }

  /** A reference is mentioned exactly when some node, however deep in bodies, has it. */
  lemma {:induction false} MentionedSomewhere(nodes: seq<Node>, ref: Ref)
    ensures Mentions(nodes, ref) <==> exists path :: MentionsAt(nodes, path, ref)
  {
    if Mentions(nodes, ref) { var path := DepthOfMention(nodes, ref); }
    if path :| MentionsAt(nodes, path, ref) { MentionedAtDepth(nodes, path, ref); }
  }

  /** The references that name a file. */
  ghost function FileGraph(files: Files): set<Edge> {
    set p, q | p in files && q in files && Mentions(files[p], FileRef(q)) :: Edge(p, q)
  }

  // ---- The state of the walk

  datatype Walk = Walk(marks: map<Id, Mark>, stack: seq<Id>, finished: seq<Id>, cyclic: bool)

  ghost predicate Marked(files: Files, w: Walk) {
    && w.marks.Keys <= files.Keys
    && (forall i, j :: 0 <= i < j < |w.stack| ==> w.stack[i] != w.stack[j])
    && (forall p :: p in w.stack <==> p in w.marks && w.marks[p] == Visiting)
    && (forall p :: p in w.finished <==> p in w.marks && w.marks[p] == Done)
  }

  ghost predicate Stacked(files: Files, w: Walk) {
    forall i :: 0 <= i < |w.stack| - 1 ==> Edge(w.stack[i], w.stack[i + 1]) in FileGraph(files)
  }

  /** Everything finished[i] refers to was finished before it. */
  ghost predicate After(files: Files, w: Walk, i: nat)
    requires i < |w.finished|
  {
    forall q :: Edge(w.finished[i], q) in FileGraph(files) ==> q in w.finished[..i]
  }

  ghost predicate Ordered(files: Files, w: Walk) {
    forall i {:trigger After(files, w, i)} :: 0 <= i < |w.finished| ==> After(files, w, i)
  }

  ghost predicate SoundWalk(files: Files, w: Walk) {
    && Marked(files, w) && Stacked(files, w)
    && (!w.cyclic ==> Ordered(files, w)) && (w.cyclic ==> !Acyclic(FileGraph(files)))
  }

  ghost predicate Look(w: Walk, k: nat) { true }

  /** The state is sound; only the lemmas below look inside. */
  ghost predicate Sound(files: Files, w: Walk) {
    forall k: nat {:trigger Look(w, k)} :: Look(w, k) ==> SoundWalk(files, w)
  }

  lemma {:induction false} FreshWalk(files: Files)
    ensures Sound(files, Walk(map[], [], [], false))
  {
  }

  lemma {:induction false} CyclicMeans(files: Files, w: Walk)
    requires Sound(files, w) && w.cyclic
    ensures !Acyclic(FileGraph(files))
  {
    assert Look(w, 0);
  }

  /** What a mark says. */
  lemma {:induction false} MarksTell(files: Files, w: Walk, q: Id)
    requires Sound(files, w)
    ensures q in w.marks ==> q in files
    ensures q in w.stack <==> q in w.marks && w.marks[q] == Visiting
    ensures q in w.finished <==> q in w.marks && w.marks[q] == Done
  {
    assert Look(w, 0);
  }

  lemma {:induction false} CycleKeeps(files: Files, w: Walk)
    requires Sound(files, w) && !Acyclic(FileGraph(files))
    ensures Sound(files, w.(cyclic := true))
  {
    assert Look(w, 0);
  }

  /** A reference to a file being visited closes a cycle. */
  lemma {:induction false} BackEdgeIsCycle(files: Files, w: Walk, q: Id)
    requires Sound(files, w) && w.stack != [] && q in w.stack && Edge(w.stack[|w.stack| - 1], q) in FileGraph(files)
    ensures !Acyclic(FileGraph(files))
  {
    assert Look(w, 0);
    var j :| 0 <= j < |w.stack| && w.stack[j] == q;
    var p := w.stack[j..] + [q];
    forall i | 0 <= i < |p| - 1 ensures Edge(p[i], p[i + 1]) in FileGraph(files) {
      if i < |p| - 2 { assert Edge(w.stack[j + i], w.stack[j + i + 1]) in FileGraph(files); }
    }
    assert Walks(FileGraph(files), p, q, q);
    assert Reaches(FileGraph(files), q, q);
  }

  lemma {:induction false} BackEdgeCloses(files: Files, w: Walk, q: Id)
    requires Sound(files, w) && w.stack != [] && q in w.stack && Edge(w.stack[|w.stack| - 1], q) in FileGraph(files)
    ensures Real(files, Cycle(w.stack + [q]))
  {
    assert Look(w, 0);
    var chain := w.stack + [q];
    assert chain[..|chain| - 1] == w.stack;
    forall i | 0 <= i < |chain| - 1 ensures Edge(chain[i], chain[i + 1]) in FileGraph(files) {
      if i < |chain| - 2 { assert Edge(w.stack[i], w.stack[i + 1]) in FileGraph(files); }
    }
  }

  function Pushed(w: Walk, q: Id): Walk {
    w.(marks := w.marks[q := Visiting], stack := w.stack + [q])
  }

  function Popped(w: Walk): Walk
    requires w.stack != []
  {
    var p := w.stack[|w.stack| - 1];
    w.(marks := w.marks[p := Done], stack := w.stack[..|w.stack| - 1], finished := w.finished + [p])
  }

  /** A file starts only while it has no mark. */
  lemma {:induction false} PushKeeps(files: Files, w: Walk, q: Id)
    requires Sound(files, w) && q in files && q !in w.marks
    requires w.stack != [] ==> Edge(w.stack[|w.stack| - 1], q) in FileGraph(files)
    ensures Sound(files, Pushed(w, q))
  {
    assert Look(w, 0);
    var w' := Pushed(w, q);
    if !w.cyclic {
      forall i | 0 <= i < |w'.finished| ensures After(files, w', i) { assert After(files, w, i); }
    }
  }

  lemma {:induction false} PopMarks(files: Files, w: Walk)
    requires Marked(files, w) && w.stack != [] && w.stack[|w.stack| - 1] in files
    ensures Marked(files, Popped(w))
  {
    var p, w' := w.stack[|w.stack| - 1], Popped(w);
    assert w.stack == w'.stack + [p];
    assert p !in w'.stack;
  }

  lemma {:induction false} PopOrders(files: Files, w: Walk)
    requires Ordered(files, w) && w.stack != [] && Targets(files, w.stack[|w.stack| - 1]) <= Members(w.finished)
    ensures Ordered(files, Popped(w))
  {
    var w' := Popped(w);
    forall i | 0 <= i < |w'.finished| ensures After(files, w', i) {
      if i < |w.finished| {
        assert After(files, w, i);
        assert w'.finished[..i] == w.finished[..i];
      } else {
        assert w'.finished[..i] == w.finished;
        forall q | Edge(w'.finished[i], q) in FileGraph(files) ensures q in w.finished {
          assert q in Targets(files, w'.finished[i]);
        }
      }
    }
  }

  /** A file ends once everything it refers to has ended. */
  lemma {:induction false} PopKeeps(files: Files, w: Walk)
    requires Sound(files, w) && w.stack != [] && w.stack[|w.stack| - 1] in files
    requires !w.cyclic ==> Targets(files, w.stack[|w.stack| - 1]) <= Members(w.finished)
    ensures Sound(files, Popped(w))
  {
    assert Look(w, 0);
    PopMarks(files, w);
    if !w.cyclic { PopOrders(files, w); }
  }

  function Members(s: seq<Id>): set<Id> { set p | p in s }

  /** The files that file p refers to. */
  ghost function Targets(files: Files, p: Id): set<Id> {
    set q | q in files && p in files && Mentions(files[p], FileRef(q))
  }

  /** When every file was finished without a cycle, the order of finishing ranks the graph. */
  lemma {:induction false} FinishedIsAcyclic(files: Files, w: Walk)
    requires Sound(files, w) && !w.cyclic && forall p :: p in files ==> p in w.finished
    ensures Acyclic(FileGraph(files))
  {
    var rank := map p | p in files :: FirstIndex(w.finished, p);
    forall e | e in FileGraph(files) ensures rank[e.source] < rank[e.target] || rank[e.target] < rank[e.source] {
      RankDrops(files, w, e);
    }
    var up := map p | p in files :: |w.finished| - rank[p];
    forall e | e in FileGraph(files) ensures up[e.source] < up[e.target] { RankDrops(files, w, e); }
    RankedIsAcyclic(FileGraph(files), up);
  }

  function FirstIndex(s: seq<Id>, p: Id): (k: nat)
    ensures k <= |s| && (p in s ==> k < |s| && s[k] == p)
    ensures forall i :: 0 <= i < k ==> s[i] != p
  {
    if s == [] || s[0] == p then 0
    else
      assert s == [s[0]] + s[1..];
      1 + FirstIndex(s[1..], p)
  }

  lemma {:induction false} RankDrops(files: Files, w: Walk, e: Edge)
    requires Sound(files, w) && !w.cyclic && e in FileGraph(files) && e.source in w.finished
    ensures e.target in w.finished && FirstIndex(w.finished, e.target) < FirstIndex(w.finished, e.source)
  {
    assert Look(w, 0);
    var i := FirstIndex(w.finished, e.source);
    assert After(files, w, i);
    var k :| 0 <= k < i && w.finished[k] == e.target;
  }

  lemma {:induction false} FewerLeft(a: set<Id>, b: set<Id>)
    requires a <= b
    ensures |a| <= |b| && (a != b ==> |a| < |b|)
  {
    assert b == a + (b - a);
  }

  /** What every part of the walk leaves as it was, and what it only adds to. */
  ghost predicate Grew(w: Walk, w': Walk) {
    && w'.stack == w.stack && w.marks.Keys <= w'.marks.Keys && (w.cyclic ==> w'.cyclic)
    && Members(w.finished) <= Members(w'.finished)
  }

  /** What visiting a file adds up to. */
  lemma {:induction false} EnteredAndLeft(w: Walk, q: Id, inside: Walk)
    requires Grew(Pushed(w, q), inside)
    ensures inside.stack != [] && inside.stack[|inside.stack| - 1] == q && Grew(w, Popped(inside))
    ensures var w' := Popped(inside); q in w'.finished && q in w'.marks && w'.marks[q] == Done
  {
    assert Members(Popped(inside).finished) == Members(inside.finished) + {q};
  }

  /** The files these nodes refer to. */
  ghost function ListTargets(files: Files, nodes: seq<Node>): set<Id> {
    set q | q in files && Mentions(nodes, FileRef(q))
  }

  ghost function NodeTargets(files: Files, n: Node): set<Id> {
    set q | q in files && NodeMentions(n, FileRef(q))
  }

  ghost function RefTargets(files: Files, ref: Ref): set<Id> {
    if ref.FileRef? && ref.path in files then {ref.path} else {}
  }

  // ---- What is wrong with single references

  /** What one reference of a file has wrong with it, cycles apart. */
  function Troubles(files: Files, q: Id, ref: Ref): set<Problem> {
    match ref
    case Outside(_) => {OutsideLibrary(q)}
    case FileRef(r) => if r in files then {} else {NoSuchFile(q, r)}
    case _ => {}
  }

  /** The chain follows references and ends at a file that it passed before. */
  ghost predicate Closes(files: Files, chain: seq<Id>) {
    |chain| > 1 && IsPath(FileGraph(files), chain) && chain[|chain| - 1] in chain[..|chain| - 1]
  }

  /** The problem is there. */
  ghost predicate Real(files: Files, x: Problem) {
    if x.Cycle? then Closes(files, x.chain)
    else x.file in files && exists ref :: Mentions(files[x.file], ref) && x in Troubles(files, x.file, ref)
  }

  /** What is wrong with the reference is among the problems. */
  ghost predicate Listed(files: Files, q: Id, ref: Ref, problems: seq<Problem>) {
    forall x :: x in Troubles(files, q, ref) ==> x in problems
  }

  lemma {:induction false} FineIsListed(files: Files, q: Id, ref: Ref, problems: seq<Problem>)
    requires !ref.Outside? && (ref.FileRef? ==> ref.path in files)
    ensures Listed(files, q, ref, problems)
  {
  }

  /** A trouble of a mentioned reference is real, and is listed once it was added. */
  lemma {:induction false} TroubleIsReal(files: Files, q: Id, ref: Ref, x: Problem, problems: seq<Problem>)
    requires q in files && Mentions(files[q], ref) && Troubles(files, q, ref) == {x}
    ensures Real(files, x) && Listed(files, q, ref, problems + [x])
  {
    assert x in Troubles(files, q, ref);
    assert x.file == q;
  }

  /** Everything wrong with these nodes of a file is among the problems. */
  ghost predicate Told(files: Files, q: Id, nodes: seq<Node>, problems: seq<Problem>) {
    forall ref, x :: Mentions(nodes, ref) && x in Troubles(files, q, ref) ==> x in problems
  }

  ghost predicate ToldNode(files: Files, q: Id, n: Node, problems: seq<Problem>) {
    forall ref, x :: NodeMentions(n, ref) && x in Troubles(files, q, ref) ==> x in problems
  }

  /** These nodes are part of the file. */
  ghost predicate Owns(files: Files, q: Id, nodes: seq<Node>) {
    q in files && forall ref :: Mentions(nodes, ref) ==> Mentions(files[q], ref)
  }

  ghost predicate OwnsNode(files: Files, q: Id, n: Node) {
    q in files && forall ref :: NodeMentions(n, ref) ==> Mentions(files[q], ref)
  }

  lemma {:induction false} OwnsItself(files: Files, q: Id)
    requires q in files
    ensures Owns(files, q, files[q])
  {
  }

  lemma {:induction false} OwnedParts(files: Files, q: Id, nodes: seq<Node>, i: nat)
    requires i < |nodes| && Owns(files, q, nodes)
    ensures OwnsNode(files, q, nodes[i])
  {
  }

  lemma {:induction false} OwnedBody(files: Files, q: Id, n: Node)
    requires OwnsNode(files, q, n)
    ensures Owns(files, q, n.body) && Mentions(files[q], n.ref)
  {
    assert NodeMentions(n, n.ref);
    forall ref | Mentions(n.body, ref) ensures Mentions(files[q], ref) { assert NodeMentions(n, ref); }
  }

  lemma {:induction false} ToldOneMore(files: Files, q: Id, nodes: seq<Node>, i: nat, before: seq<Problem>, after: seq<Problem>)
    requires i < |nodes| && Told(files, q, nodes[..i], before) && before <= after && ToldNode(files, q, nodes[i], after)
    ensures Told(files, q, nodes[..i + 1], after)
  {
    forall ref, x | Mentions(nodes[..i + 1], ref) && x in Troubles(files, q, ref) ensures x in after {
      var j :| 0 <= j < i + 1 && NodeMentions(nodes[..i + 1][j], ref);
      if j < i {
        assert NodeMentions(nodes[..i][j], ref);
        assert x in before;
      }
    }
  }

  lemma {:induction false} ToldBoth(files: Files, q: Id, n: Node, before: seq<Problem>, after: seq<Problem>)
    requires Listed(files, q, n.ref, before) && before <= after && Told(files, q, n.body, after)
    ensures ToldNode(files, q, n, after)
  {
    forall ref, x | NodeMentions(n, ref) && x in Troubles(files, q, ref) ensures x in after {
      if ref == n.ref { assert x in before; }
    }
  }

  /** Every problem is there, and all that is wrong with a finished file is among them. */
  ghost predicate Audited(files: Files, finished: seq<Id>, problems: seq<Problem>) {
    && (forall x :: x in problems ==> Real(files, x))
    && forall p :: p in finished ==> p in files && Told(files, p, files[p], problems)
  }

  ghost predicate Leaf(problems: seq<Problem>, k: nat) { true }

  /** Audited; only the lemmas below look inside. */
  ghost predicate Checked(files: Files, finished: seq<Id>, problems: seq<Problem>) {
    forall k: nat {:trigger Leaf(problems, k)} :: Leaf(problems, k) ==> Audited(files, finished, problems)
  }

  lemma {:induction false} NothingToAudit(files: Files)
    ensures Checked(files, [], [])
  {
  }

  lemma {:induction false} AuditReports(files: Files, finished: seq<Id>, problems: seq<Problem>, x: Problem)
    requires Checked(files, finished, problems) && Real(files, x)
    ensures Checked(files, finished, problems + [x])
  {
    assert Leaf(problems, 0);
    forall p | p in finished ensures p in files && Told(files, p, files[p], problems + [x]) {
      assert Told(files, p, files[p], problems);
    }
  }

  lemma {:induction false} AuditLeaves(files: Files, finished: seq<Id>, problems: seq<Problem>, p: Id)
    requires Checked(files, finished, problems) && p in files && Told(files, p, files[p], problems)
    ensures Checked(files, finished + [p], problems)
  {
    assert Leaf(problems, 0);
  }

  lemma {:induction false} ListedExactly(files: Files, finished: seq<Id>, problems: seq<Problem>)
    requires Checked(files, finished, problems) && forall p :: p in files ==> p in finished
    ensures forall x :: x in problems && x.Cycle? ==> Closes(files, x.chain)
    ensures forall x: Problem :: !x.Cycle? ==>
      (x in problems <==> x.file in files && exists ref :: Mentions(files[x.file], ref) && x in Troubles(files, x.file, ref))
  {
    assert Leaf(problems, 0);
    forall x: Problem | !x.Cycle? && x.file in files && exists ref :: Mentions(files[x.file], ref) && x in Troubles(files, x.file, ref)
      ensures x in problems
    {
      assert Told(files, x.file, files[x.file], problems);
    }
    forall x | x in problems ensures Real(files, x) { }
  }

  ghost predicate Reported(problems: seq<Problem>) {
    exists i :: 0 <= i < |problems| && problems[i].Cycle?
  }

  lemma {:induction false} ReportOne(problems: seq<Problem>, p: Problem)
    ensures Reported(problems + [p]) <==> Reported(problems) || p.Cycle?
  {
    if Reported(problems) {
      var i :| 0 <= i < |problems| && problems[i].Cycle?;
      assert (problems + [p])[i].Cycle?;
    }
    if p.Cycle? { assert (problems + [p])[|problems|].Cycle?; }
  }

  /** The walk stands inside file q, among nodes of it. */
  ghost predicate Inside(files: Files, w: Walk, q: Id, targets: set<Id>) {
    w.stack != [] && w.stack[|w.stack| - 1] == q && q in files && targets <= Targets(files, q)
  }

  lemma {:induction false} StaysInside(files: Files, w: Walk, w': Walk, q: Id, targets: set<Id>, fewer: set<Id>)
    requires Inside(files, w, q, targets) && w'.stack == w.stack && fewer <= targets
    ensures Inside(files, w', q, fewer)
  {
  }

  lemma {:induction false} TopIsInside(files: Files, w: Walk, q: Id)
    requires q in files && w.stack != [] && w.stack[|w.stack| - 1] == q
    ensures Inside(files, w, q, ListTargets(files, files[q])) && ListTargets(files, files[q]) == Targets(files, q)
  {
  }

  lemma {:induction false} TargetIsEdge(files: Files, w: Walk, q: Id, targets: set<Id>, r: Id)
    requires Inside(files, w, q, targets) && r in targets
    ensures r in files && w.stack != [] && Edge(w.stack[|w.stack| - 1], r) in FileGraph(files)
  {
    assert Edge(q, r) in FileGraph(files);
  }

  lemma {:induction false} NodeTargetsAre(files: Files, n: Node)
    ensures ListTargets(files, n.body) <= NodeTargets(files, n)
    ensures RefTargets(files, n.ref) <= NodeTargets(files, n)
    ensures NodeTargets(files, n) <= ListTargets(files, n.body) + RefTargets(files, n.ref)
  {
  }

  lemma {:induction false} TargetsOneMore(files: Files, nodes: seq<Node>, i: nat)
    requires i < |nodes|
    ensures NodeTargets(files, nodes[i]) <= ListTargets(files, nodes)
    ensures ListTargets(files, nodes[..i + 1]) <= ListTargets(files, nodes[..i]) + NodeTargets(files, nodes[i])
  {
    forall q | q in ListTargets(files, nodes[..i + 1]) ensures q in ListTargets(files, nodes[..i]) + NodeTargets(files, nodes[i]) {
      var j :| 0 <= j < i + 1 && NodeMentions(nodes[..i + 1][j], FileRef(q));
      if j < i { assert NodeMentions(nodes[..i][j], FileRef(q)); }
    }
  }

  class Resolver {
    const files: Files
    var marks: map<Id, Mark>
    var stack: seq<Id>
    var problems: seq<Problem>
    var exported: set<Id>
    ghost var finished: seq<Id>
    ghost var cyclic: bool

    ghost function Now(): Walk
      reads this
    {
      Walk(marks, stack, finished, cyclic)
    }

    /** A file's exports are filled in before it is done; a cycle is reported exactly when one was met. */
    ghost predicate Valid()
      reads this
    {
      && Sound(files, Now()) && Members(finished) <= exported && (cyclic <==> Reported(problems))
      && Checked(files, finished, problems)
    }

    ghost function Left(): nat
      reads this
    {
      |files.Keys - marks.Keys|
    }

    constructor (files: Files)
      ensures Valid() && marks == map[] && stack == [] && !cyclic && this.files == files
    {
      this.files, marks, stack, problems, exported, finished, cyclic := files, map[], [], [], {}, [], false;
      new;
      FreshWalk(files);
      NothingToAudit(files);
    }

    /** Records a problem that is there. */
    method Report(p: Problem)
      requires Valid() && Real(files, p) && (p.Cycle? ==> !Acyclic(FileGraph(files)))
      modifies this`problems, this`cyclic
      ensures Valid() && Now() == old(Now()).(cyclic := old(cyclic) || p.Cycle?) && problems == old(problems) + [p]
    {
      ReportOne(problems, p);
      AuditReports(files, finished, problems, p);
      if p.Cycle? { CycleKeeps(files, Now()); }
      problems := problems + [p];
      cyclic := cyclic || p.Cycle?;
    }

    /** bindModule: a reference to a file is followed, and that file's exports are read only once it is done. */
    method BindModule(ref: Ref, ghost q: Id)
      requires Valid() && Inside(files, Now(), q, RefTargets(files, ref)) && Mentions(files[q], ref)
      modifies this
      ensures Valid() && Grew(old(Now()), Now()) && old(problems) <= problems
      ensures Listed(files, q, ref, problems)
      ensures !cyclic ==> RefTargets(files, ref) <= Members(finished)
      decreases Left(), 2
    {
      match ref
      case NoModule => FineIsListed(files, q, ref, problems);
      case FlowId(_) => FineIsListed(files, q, ref, problems);
      case Outside(_) => Refuse(ref, OutsideLibrary(stack[|stack| - 1]), q);
      case FileRef(r) =>
        MarksTell(files, Now(), r);
        if r in marks && marks[r] == Visiting {
          CloseCycle(r, q);
        } else if r !in files {
          Refuse(ref, NoSuchFile(stack[|stack| - 1], r), q);
        } else {
          Follow(r, q);
        }
    }

    method Refuse(ref: Ref, x: Problem, ghost q: Id)
      requires Valid() && Inside(files, Now(), q, RefTargets(files, ref)) && Mentions(files[q], ref)
      requires Troubles(files, q, ref) == {x} && !x.Cycle?
      modifies this`problems, this`cyclic
      ensures Valid() && Grew(old(Now()), Now()) && old(problems) <= problems && Listed(files, q, ref, problems)
    {
      TroubleIsReal(files, q, ref, x, problems);
      Report(x);
    }

    method CloseCycle(r: Id, ghost q: Id)
      requires Valid() && Inside(files, Now(), q, RefTargets(files, FileRef(r))) && r in files && r in stack
      modifies this`problems, this`cyclic
      ensures Valid() && Grew(old(Now()), Now()) && old(problems) <= problems && Listed(files, q, FileRef(r), problems) && cyclic
    {
      TargetIsEdge(files, Now(), q, RefTargets(files, FileRef(r)), r);
      BackEdgeIsCycle(files, Now(), r);
      BackEdgeCloses(files, Now(), r);
      Report(Cycle(stack + [r]));
      FineIsListed(files, q, FileRef(r), problems);
    }

    method Follow(r: Id, ghost q: Id)
      requires Valid() && Inside(files, Now(), q, RefTargets(files, FileRef(r))) && r in files && r !in stack
      modifies this
      ensures Valid() && Grew(old(Now()), Now()) && old(problems) <= problems && Listed(files, q, FileRef(r), problems)
      ensures r in Members(finished)
      decreases Left(), 1
    {
      TargetIsEdge(files, Now(), q, RefTargets(files, FileRef(r)), r);
      Visit(r);
      assert marks[r] == Done;
      MarksTell(files, Now(), r);
      assert r in exported;
      FineIsListed(files, q, FileRef(r), problems);
    }

    /** visit: a file is entered once, and left with everything it refers to done. */
    method Visit(q: Id)
      requires Valid() && q in files && q !in stack
      requires stack != [] ==> Edge(stack[|stack| - 1], q) in FileGraph(files)
      modifies this
      ensures Valid() && Grew(old(Now()), Now()) && q in finished && q in marks && marks[q] == Done && old(problems) <= problems
      decreases Left(), 0
    {
      MarksTell(files, Now(), q);
      if q in marks {
        return;
      }
      Enter(q);
      TopIsInside(files, Now(), q);
      OwnsItself(files, q);
      Finish(q, files[q]);
      EnteredAndLeft(old(Now()), q, Now());
      Leave(q);
    }

    method Enter(q: Id)
      requires Valid() && q in files && q !in marks
      requires stack != [] ==> Edge(stack[|stack| - 1], q) in FileGraph(files)
      modifies this`marks, this`stack
      ensures Valid() && Now() == Pushed(old(Now()), q) && Left() < old(Left()) && problems == old(problems)
    {
      PushKeeps(files, Now(), q);
      FewerLeft(files.Keys - marks.Keys - {q}, files.Keys - marks.Keys);
      marks := marks[q := Visiting];
      stack := stack + [q];
      assert files.Keys - marks.Keys == files.Keys - old(marks).Keys - {q};
    }

    method Leave(ghost q: Id)
      requires Valid() && stack != [] && stack[|stack| - 1] == q && q in files
      requires (!cyclic ==> Targets(files, q) <= Members(finished)) && Told(files, q, files[q], problems)
      modifies this`marks, this`stack, this`exported, this`finished
      ensures Valid() && Now() == Popped(old(Now()))
    {
      var p := stack[|stack| - 1];
      PopKeeps(files, Now());
      AuditLeaves(files, finished, problems, p);
      exported := exported + {p};
      marks := marks[p := Done];
      stack := stack[..|stack| - 1];
      finished := finished + [p];
      assert Members(finished) == Members(old(finished)) + {p};
    }

    /** finish: the nodes of a file or of a body, in order. */
    method Finish(ghost q: Id, nodes: seq<Node>)
      requires Valid() && Inside(files, Now(), q, ListTargets(files, nodes)) && Owns(files, q, nodes)
      modifies this
      ensures Valid() && Grew(old(Now()), Now()) && old(problems) <= problems && Told(files, q, nodes, problems)
      ensures !cyclic ==> ListTargets(files, nodes) <= Members(finished)
      decreases Left(), 3, nodes
    {
      assert nodes[..0] == [];
      for i := 0 to |nodes|
        invariant Valid() && Grew(old(Now()), Now()) && old(problems) <= problems && Told(files, q, nodes[..i], problems)
        invariant !cyclic ==> ListTargets(files, nodes[..i]) <= Members(finished)
      {
        TargetsOneMore(files, nodes, i);
        StaysInside(files, old(Now()), Now(), q, ListTargets(files, nodes), NodeTargets(files, nodes[i]));
        FewerLeft(files.Keys - marks.Keys, files.Keys - old(marks).Keys);
        OwnedParts(files, q, nodes, i);
        ghost var before := problems;
        FinishNode(q, nodes[i]);
        ToldOneMore(files, q, nodes, i, before, problems);
      }
      assert nodes[..|nodes|] == nodes;
    }

    /** bindModule, then visitBody. */
    method FinishNode(ghost q: Id, n: Node)
      requires Valid() && Inside(files, Now(), q, NodeTargets(files, n)) && OwnsNode(files, q, n)
      modifies this
      ensures Valid() && Grew(old(Now()), Now()) && old(problems) <= problems && ToldNode(files, q, n, problems)
      ensures !cyclic ==> NodeTargets(files, n) <= Members(finished)
      decreases Left(), 3, n
    {
      NodeTargetsAre(files, n);
      StaysInside(files, Now(), Now(), q, NodeTargets(files, n), RefTargets(files, n.ref));
      OwnedBody(files, q, n);
      BindModule(n.ref, q);
      ghost var before := problems;
      StaysInside(files, old(Now()), Now(), q, NodeTargets(files, n), ListTargets(files, n.body));
      FewerLeft(files.Keys - marks.Keys, files.Keys - old(marks).Keys);
      Finish(q, n.body);
      ToldBoth(files, q, n, before, problems);
    }
  }

  /**
   * resolveAll: terminates. A module cycle is reported exactly when the files refer to each other in one, and each
   * reported chain is such a cycle; a reference outside the library or to no file is reported for the file that has it,
   * and nothing else is.
   */
  method ResolveAll(files: Files, order: seq<Id>) returns (problems: seq<Problem>)
    requires forall p :: p in order <==> p in files
    ensures Reported(problems) <==> !Acyclic(FileGraph(files))
    ensures forall x :: x in problems && x.Cycle? ==> Closes(files, x.chain)
    ensures forall x: Problem :: !x.Cycle? ==>
      (x in problems <==> x.file in files && exists ref :: Mentions(files[x.file], ref) && x in Troubles(files, x.file, ref))
  {
    var r := new Resolver(files);
    for i := 0 to |order|
      invariant r.files == files && r.Valid() && r.stack == [] && fresh(r)
      invariant forall j :: 0 <= j < i ==> order[j] in Members(r.finished)
    {
      r.Visit(order[i]);
    }
    problems := r.problems;
    forall p | p in files ensures p in r.finished {
      var j :| 0 <= j < |order| && order[j] == p;
    }
    ListedExactly(files, r.finished, problems);
    if r.cyclic {
      CyclicMeans(files, r.Now());
    } else {
      FinishedIsAcyclic(files, r.Now());
    }
  }
}
