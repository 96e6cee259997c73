/** The in-place rewrite of a parsed document: an explicit stack of elements
    whose child lists are reassigned.

    Elements are objects; text and other leaves are values, and so are the
    mention spans the rewrite creates, which nothing visits or changes again.
    `repr` of an element is the set of elements of its subtree. */
module MentionTree {
  import opened Results
  import opened Mentions

  const CODE: Text := [0x63, 0x6F, 0x64, 0x65]
  const PRE: Text := [0x70, 0x72, 0x65]
  const SPAN: Text := [0x73, 0x70, 0x61, 0x6E]
  const MENTION: Text := [0x6D, 0x65, 0x6E, 0x74, 0x69, 0x6F, 0x6E]

  const NODE_CAP := 100_000

  predicate NoHighlight(tag: Text) {
    tag == CODE || tag == PRE
  }

  class Element {
    const tag: Text
    const className: Text
    var children: seq<Node>
    ghost const repr: set<Element>

    constructor (tag: Text, className: Text, children: seq<Node>, ghost below: set<Element>)
      ensures this.tag == tag && this.className == className && this.children == children && repr == below + {this}
    {
      this.tag, this.className, this.children, repr := tag, className, children, below + {this};
    }
  }

  /** A child: a text, an element, a mention span made by the rewrite, or a
      leaf of another kind (a comment, say). */
  datatype Node = TextNode(value: Text) | ElementNode(elem: Element) | MentionNode(caption: Text) | OtherNode(id: nat)

  // ----- Documents as values, and the recursive rewrite -----

  datatype Tree = TText(value: Text) | TElem(tag: Text, className: Text, kids: seq<Tree>) | TOther(id: nat)

  function MentionElement(caption: Text): Tree {
    TElem(SPAN, MENTION, [TText(caption)])
  }

  function PartTree(p: Part): Tree {
    match p case Plain(v) => TText(v) case Tag(t) => MentionElement(t)
  }

  function PartTrees(parts: seq<Part>): seq<Tree> {
    if parts == [] then [] else [PartTree(parts[0])] + PartTrees(parts[1..])
  }

  /** Some text among these children splits into more than one part. */
  ghost predicate SomeSplit(mode: Mode, kids: seq<Tree>)
    requires GoodMode(mode)
  {
    kids != [] &&
    ((kids[0].TText? && |Split(kids[0].value, SpansFor(mode, kids[0].value))| > 1) || SomeSplit(mode, kids[1..]))
  }

  /** Children rewritten: elements other than `code`/`pre` in their turn, and
      texts split when `wrap`. */
  ghost function RewriteKids(mode: Mode, kids: seq<Tree>, wrap: bool): seq<Tree>
    requires GoodMode(mode)
    decreases kids, 0
  {
    if kids == [] then []
    else (match kids[0]
          case TText(v) => if wrap then PartTrees(Split(v, SpansFor(mode, v))) else [kids[0]]
          case TElem(tag, _, _) => [if NoHighlight(tag) then kids[0] else Rewrite(mode, kids[0])]
          case TOther(_) => [kids[0]])
         + RewriteKids(mode, kids[1..], wrap)
  }

  /** The recursive rewrite: a node's texts are wrapped when one of them
      splits into more than one part; a text that is one whole mention, with
      no such sibling, stays as it is. */
  ghost function Rewrite(mode: Mode, t: Tree): Tree
    requires GoodMode(mode)
    decreases t, 1
  {
    if t.TElem? then t.(kids := RewriteKids(mode, t.kids, SomeSplit(mode, t.kids))) else t
  }

  /** The text of a document, in order. */
  function Flat(t: Tree): Text
    decreases t, 1
  {
    match t case TText(v) => v case TElem(_, _, kids) => FlatKids(kids) case TOther(_) => []
  }

  function FlatKids(kids: seq<Tree>): Text
    decreases kids, 0
  {
    if kids == [] then [] else Flat(kids[0]) + FlatKids(kids[1..])
  }

  /** The outermost `code`/`pre` subtrees below an element, in order. */
  function Blocks(kids: seq<Tree>): seq<Tree>
    decreases kids
  {
    if kids == [] then []
    else (match kids[0]
          case TElem(tag, _, below) => if NoHighlight(tag) then [kids[0]] else Blocks(below)
          case _ => [])
         + Blocks(kids[1..])
  }

  /** How many elements the walk visits. */
  function Visits(t: Tree): nat
    decreases t, 1
  {
    if t.TElem? then 1 + VisitsBelow(t.kids) else 0
  }

  function VisitsBelow(kids: seq<Tree>): nat
    decreases kids, 0
  {
    if kids == [] then 0
    else (if kids[0].TElem? && !NoHighlight(kids[0].tag) then Visits(kids[0]) else 0) + VisitsBelow(kids[1..])
  }

  lemma {:induction false} HeadTail<T>(s: seq<T>)
    requires s != []
    ensures s == [s[0]] + s[1..]
  {
  }

  /** What becomes of one child. */
  ghost function RewriteKid(mode: Mode, kid: Tree, wrap: bool): seq<Tree>
    requires GoodMode(mode)
  {
    match kid
    case TText(v) => if wrap then PartTrees(Split(v, SpansFor(mode, v))) else [kid]
    case TElem(tag, _, _) => [if NoHighlight(tag) then kid else Rewrite(mode, kid)]
    case TOther(_) => [kid]
  }

  lemma {:induction false} RewriteKidsCons(mode: Mode, kid: Tree, kids: seq<Tree>, wrap: bool)
    requires GoodMode(mode)
    ensures RewriteKids(mode, [kid] + kids, wrap) == RewriteKid(mode, kid, wrap) + RewriteKids(mode, kids, wrap)
  {
    assert ([kid] + kids)[1..] == kids;
  }

  lemma {:induction false} FlatKidsAppend(a: seq<Tree>, b: seq<Tree>)
    ensures FlatKids(a + b) == FlatKids(a) + FlatKids(b)
  {
    if a == [] {
      assert a + b == b;
    } else {
      assert (a + b)[1..] == a[1..] + b;
      FlatKidsAppend(a[1..], b);
    }
  }

  lemma {:induction false} BlocksAppend(a: seq<Tree>, b: seq<Tree>)
    ensures Blocks(a + b) == Blocks(a) + Blocks(b)
  {
    if a == [] {
      assert a + b == b;
    } else {
      assert a == [a[0]] + a[1..] && a + b == [a[0]] + (a[1..] + b);
      FlatCons(a[0], a[1..]);
      FlatCons(a[0], a[1..] + b);
      BlocksAppend(a[1..], b);
      JoinAssoc(Blocks([a[0]]), Blocks(a[1..]), Blocks(b));
    }
  }

  lemma {:induction false} PartTreesFacts(parts: seq<Part>)
    ensures FlatKids(PartTrees(parts)) == Concat(parts) && Blocks(PartTrees(parts)) == []
  {
    if parts != [] {
      var p := parts[0];
      PartTreesFacts(parts[1..]);
      assert PartTrees(parts)[1..] == PartTrees(parts[1..]);
      Single(TText(TextOf(p)));
      assert Flat(PartTree(p)) == TextOf(p) && SPAN[0] != CODE[0] && SPAN[0] != PRE[0];
    }
  }

  /** The rewrite keeps the text of the document and every `code`/`pre`
      subtree, in order. */
  lemma {:induction false} RewriteKeepsText(mode: Mode, t: Tree)
    requires GoodMode(mode)
    ensures Flat(Rewrite(mode, t)) == Flat(t)
    ensures t.TElem? ==> Blocks(Rewrite(mode, t).kids) == Blocks(t.kids)
    decreases t, 1
  {
    if t.TElem? { RewriteKidsKeepText(mode, t.kids, SomeSplit(mode, t.kids)); }
  }

  lemma {:induction false} RewriteKidsKeepText(mode: Mode, kids: seq<Tree>, wrap: bool)
    requires GoodMode(mode)
    ensures FlatKids(RewriteKids(mode, kids, wrap)) == FlatKids(kids)
    ensures Blocks(RewriteKids(mode, kids, wrap)) == Blocks(kids)
    decreases kids, 0
  {
    if kids != [] {
      HeadTail(kids);
      RewriteKidKeepsText(mode, kids[0], wrap);
      RewriteKidsKeepText(mode, kids[1..], wrap);
      RewriteKidsCons(mode, kids[0], kids[1..], wrap);
      FlatKidsAppend(RewriteKid(mode, kids[0], wrap), RewriteKids(mode, kids[1..], wrap));
      BlocksAppend(RewriteKid(mode, kids[0], wrap), RewriteKids(mode, kids[1..], wrap));
      FlatCons(kids[0], kids[1..]);
    }
  }

  lemma {:induction false} RewriteKidKeepsText(mode: Mode, kid: Tree, wrap: bool)
    requires GoodMode(mode)
    ensures FlatKids(RewriteKid(mode, kid, wrap)) == Flat(kid)
    ensures Blocks(RewriteKid(mode, kid, wrap)) == Blocks([kid])
    decreases kid, 2
  {
    Single(kid);
    match kid {
      case TText(v) =>
        SplitRoundTrip(v, SpansFor(mode, v));
        PartTreesFacts(Split(v, SpansFor(mode, v)));
      case TElem(_, _, _) =>
        RewriteKeepsText(mode, kid);
        Single(Rewrite(mode, kid));
      case TOther(_) =>
    }
  }

  lemma {:induction false} Single(t: Tree)
    ensures FlatKids([t]) == Flat(t)
    ensures Blocks([t]) == match t
                           case TElem(tag, _, below) => if NoHighlight(tag) then [t] else Blocks(below)
                           case _ => []
  {
    assert [t][1..] == [];
  }

  lemma {:induction false} FlatCons(t: Tree, ts: seq<Tree>)
    ensures FlatKids([t] + ts) == Flat(t) + FlatKids(ts) && Blocks([t] + ts) == Blocks([t]) + Blocks(ts)
  {
    assert ([t] + ts)[1..] == ts;
    assert [t][1..] == [];
  }

  // ----- The document in the heap, through a snapshot of its child lists -----

  type Kids = map<Element, seq<Node>>

  /** The elements reached from `e` form a tree, whose elements are `e.repr`. */
  ghost predicate IsTree(ch: Kids, e: Element)
    decreases e.repr, 0
  {
    e in ch && e in e.repr && AreTrees(ch, ch[e], e.repr - {e})
  }

  /** What is left of `below` after a node. */
  ghost function Rest(node: Node, below: set<Element>): set<Element> {
    if node.ElementNode? then below - node.elem.repr else below
  }

  /** `below` is partitioned among the elements of `nodes`. */
  ghost predicate AreTrees(ch: Kids, nodes: seq<Node>, below: set<Element>)
    decreases below, |nodes| + 2
  {
    if nodes == [] then below == {}
    else NodeOk(ch, nodes[0], below) && AreTrees(ch, nodes[1..], Rest(nodes[0], below))
  }

  ghost predicate NodeOk(ch: Kids, node: Node, below: set<Element>)
    decreases below, 1
  {
    node.ElementNode? ==> node.elem in node.elem.repr && node.elem.repr <= below && IsTree(ch, node.elem)
  }

  ghost function Abs(ch: Kids, e: Element): Tree
    requires IsTree(ch, e)
    decreases e.repr, 0
  {
    TElem(e.tag, e.className, AbsAll(ch, ch[e], e.repr - {e}))
  }

  ghost function AbsNode(ch: Kids, node: Node, below: set<Element>): Tree
    requires NodeOk(ch, node, below)
    decreases below, 1
  {
    match node
    case ElementNode(c) => Abs(ch, c)
    case TextNode(v) => TText(v)
    case MentionNode(t) => MentionElement(t)
    case OtherNode(id) => TOther(id)
  }

  ghost function AbsAll(ch: Kids, nodes: seq<Node>, below: set<Element>): seq<Tree>
    requires AreTrees(ch, nodes, below)
    decreases below, |nodes| + 2
  {
    if nodes == [] then [] else [AbsNode(ch, nodes[0], below)] + AbsAll(ch, nodes[1..], Rest(nodes[0], below))
  }

  /** The document once the elements in `todo` have been rewritten, those
      under `code`/`pre` aside. */
  ghost function Finish(mode: Mode, ch: Kids, e: Element, todo: set<Element>): Tree
    requires GoodMode(mode) && IsTree(ch, e)
    decreases e.repr, 0
  {
    if e in todo then Rewrite(mode, Abs(ch, e))
    else TElem(e.tag, e.className, FinishAll(mode, ch, ch[e], e.repr - {e}, todo))
  }

  ghost function FinishNode(mode: Mode, ch: Kids, node: Node, below: set<Element>, todo: set<Element>): Tree
    requires GoodMode(mode) && NodeOk(ch, node, below)
    decreases below, 1
  {
    if node.ElementNode? && !NoHighlight(node.elem.tag) then Finish(mode, ch, node.elem, todo)
    else AbsNode(ch, node, below)
  }

  ghost function FinishAll(mode: Mode, ch: Kids, nodes: seq<Node>, below: set<Element>, todo: set<Element>): seq<Tree>
    requires GoodMode(mode) && AreTrees(ch, nodes, below)
    decreases below, |nodes| + 2
  {
    if nodes == [] then []
    else [FinishNode(mode, ch, nodes[0], below, todo)] + FinishAll(mode, ch, nodes[1..], Rest(nodes[0], below), todo)
  }

  /** What is left to do changes neither the text nor the blocks. */
  lemma {:induction false} FinishKeepsText(mode: Mode, ch: Kids, e: Element, todo: set<Element>)
    requires GoodMode(mode) && IsTree(ch, e)
    ensures Flat(Finish(mode, ch, e, todo)) == Flat(Abs(ch, e))
    ensures Blocks(Finish(mode, ch, e, todo).kids) == Blocks(Abs(ch, e).kids)
    decreases e.repr, 0
  {
    if e in todo {
      RewriteKeepsText(mode, Abs(ch, e));
    } else {
      FinishAllKeepsText(mode, ch, ch[e], e.repr - {e}, todo);
    }
  }

  lemma {:induction false} FinishAllKeepsText(mode: Mode, ch: Kids, nodes: seq<Node>, below: set<Element>,
                                          todo: set<Element>)
    requires GoodMode(mode) && AreTrees(ch, nodes, below)
    ensures FlatKids(FinishAll(mode, ch, nodes, below, todo)) == FlatKids(AbsAll(ch, nodes, below))
    ensures Blocks(FinishAll(mode, ch, nodes, below, todo)) == Blocks(AbsAll(ch, nodes, below))
    decreases below, |nodes| + 2
  {
    if nodes != [] {
      var below' := Rest(nodes[0], below);
      FinishNodeKeepsText(mode, ch, nodes[0], below, todo);
      FinishAllKeepsText(mode, ch, nodes[1..], below', todo);
      FlatCons(AbsNode(ch, nodes[0], below), AbsAll(ch, nodes[1..], below'));
      FlatCons(FinishNode(mode, ch, nodes[0], below, todo), FinishAll(mode, ch, nodes[1..], below', todo));
    }
  }

  lemma {:induction false} ElementKeepsText(mode: Mode, ch: Kids, c: Element, todo: set<Element>)
    requires GoodMode(mode) && IsTree(ch, c) && !NoHighlight(c.tag)
             && Flat(Finish(mode, ch, c, todo)) == Flat(Abs(ch, c))
    requires Blocks(Finish(mode, ch, c, todo).kids) == Blocks(Abs(ch, c).kids)
    ensures Blocks([Finish(mode, ch, c, todo)]) == Blocks([Abs(ch, c)])
  {
    SameTextNode(Finish(mode, ch, c, todo), Abs(ch, c));
  }

  lemma {:induction false} FinishNodeKeepsText(mode: Mode, ch: Kids, node: Node, below: set<Element>,
                                          todo: set<Element>)
    requires GoodMode(mode) && NodeOk(ch, node, below)
    ensures Flat(FinishNode(mode, ch, node, below, todo)) == Flat(AbsNode(ch, node, below))
    ensures Blocks([FinishNode(mode, ch, node, below, todo)]) == Blocks([AbsNode(ch, node, below)])
    decreases below, 1
  {
    if node.ElementNode? && !NoHighlight(node.elem.tag) {
      var c := node.elem;
      FinishKeepsText(mode, ch, c, todo);
      ElementKeepsText(mode, ch, c, todo);
    }
  }

  lemma {:induction false} SameTextNode(a: Tree, b: Tree)
    requires a.TElem? && b.TElem? && a.tag == b.tag && !NoHighlight(a.tag) && Flat(a) == Flat(b)
             && Blocks(a.kids) == Blocks(b.kids)
    ensures Blocks([a]) == Blocks([b])
  {
    Single(a);
    Single(b);
  }

  /** With nothing to do, the document is what it is. */
  lemma {:induction false} FinishNothing(mode: Mode, ch: Kids, e: Element)
    requires GoodMode(mode) && IsTree(ch, e)
    ensures Finish(mode, ch, e, {}) == Abs(ch, e)
    decreases e.repr, 0
  {
    FinishAllNothing(mode, ch, ch[e], e.repr - {e});
  }

  lemma {:induction false} FinishAllNothing(mode: Mode, ch: Kids, nodes: seq<Node>, below: set<Element>)
    requires GoodMode(mode) && AreTrees(ch, nodes, below)
    ensures FinishAll(mode, ch, nodes, below, {}) == AbsAll(ch, nodes, below)
    decreases below, |nodes| + 2
  {
    if nodes != [] {
      FinishNodeNothing(mode, ch, nodes[0], below);
      FinishAllNothing(mode, ch, nodes[1..], Rest(nodes[0], below));
    }
  }

  lemma {:induction false} FinishNodeNothing(mode: Mode, ch: Kids, node: Node, below: set<Element>)
    requires GoodMode(mode) && NodeOk(ch, node, below)
    ensures FinishNode(mode, ch, node, below, {}) == AbsNode(ch, node, below)
    decreases below, 1
  {
    if node.ElementNode? { FinishNothing(mode, ch, node.elem); }
  }

  // ----- Locality -----

  /** `x` may be visited from `e`: no `code`/`pre` child in between. */
  ghost predicate Open(ch: Kids, e: Element, x: Element)
    requires IsTree(ch, e)
    decreases e.repr, 0
  {
    x == e || OpenAll(ch, ch[e], e.repr - {e}, x)
  }

  ghost predicate OpenNode(ch: Kids, node: Node, below: set<Element>, x: Element)
    requires NodeOk(ch, node, below)
    decreases below, 1
  {
    node.ElementNode? && !NoHighlight(node.elem.tag) && Open(ch, node.elem, x)
  }

  ghost predicate OpenAll(ch: Kids, nodes: seq<Node>, below: set<Element>, x: Element)
    requires AreTrees(ch, nodes, below)
    decreases below, |nodes| + 2
  {
    nodes != [] && (OpenNode(ch, nodes[0], below, x) || OpenAll(ch, nodes[1..], Rest(nodes[0], below), x))
  }

  lemma {:induction false} OpenInside(ch: Kids, e: Element, x: Element)
    requires IsTree(ch, e) && Open(ch, e, x)
    ensures x in e.repr && x.repr <= e.repr && IsTree(ch, x)
    decreases e.repr, 0
  {
    if x != e { OpenAllInside(ch, ch[e], e.repr - {e}, x); }
  }

  lemma {:induction false} OpenAllInside(ch: Kids, nodes: seq<Node>, below: set<Element>, x: Element)
    requires AreTrees(ch, nodes, below) && OpenAll(ch, nodes, below, x)
    ensures x in below && x.repr <= below && IsTree(ch, x)
    decreases below, |nodes| + 2
  {
    if OpenNode(ch, nodes[0], below, x) {
      OpenInside(ch, nodes[0].elem, x);
    } else {
      OpenAllInside(ch, nodes[1..], Rest(nodes[0], below), x);
    }
  }

  /** Two snapshots with the same lists and the same work inside `es`. */
  ghost predicate SameInside(ch: Kids, ch': Kids, todo: set<Element>, todo': set<Element>, es: set<Element>) {
    && (forall x :: x in es && x in ch ==> x in ch' && ch'[x] == ch[x])
    && (forall x :: x in es ==> (x in todo <==> x in todo'))
  }

  /** Nothing about a subtree depends on what is outside it. */
  lemma {:induction false} Frame(mode: Mode, ch: Kids, ch': Kids, e: Element, todo: set<Element>, todo': set<Element>)
    requires GoodMode(mode) && IsTree(ch, e) && SameInside(ch, ch', todo, todo', e.repr)
    ensures IsTree(ch', e) && Abs(ch', e) == Abs(ch, e)
    ensures Finish(mode, ch', e, todo') == Finish(mode, ch, e, todo)
    decreases e.repr, 0
  {
    FrameAll(mode, ch, ch', ch[e], e.repr - {e}, todo, todo');
  }

  lemma {:induction false} FrameNode(mode: Mode, ch: Kids, ch': Kids, node: Node, below: set<Element>,
                                     todo: set<Element>, todo': set<Element>)
    requires GoodMode(mode) && NodeOk(ch, node, below) && SameInside(ch, ch', todo, todo', below)
    ensures NodeOk(ch', node, below) && AbsNode(ch', node, below) == AbsNode(ch, node, below)
    ensures FinishNode(mode, ch', node, below, todo') == FinishNode(mode, ch, node, below, todo)
    decreases below, 1
  {
    hide Abs, Finish;
    if node.ElementNode? { Frame(mode, ch, ch', node.elem, todo, todo'); }
  }

  lemma {:induction false} FrameAll(mode: Mode, ch: Kids, ch': Kids, nodes: seq<Node>, below: set<Element>,
                                    todo: set<Element>, todo': set<Element>)
    requires GoodMode(mode) && AreTrees(ch, nodes, below) && SameInside(ch, ch', todo, todo', below)
    ensures AreTrees(ch', nodes, below) && AbsAll(ch', nodes, below) == AbsAll(ch, nodes, below)
    ensures FinishAll(mode, ch', nodes, below, todo') == FinishAll(mode, ch, nodes, below, todo)
    decreases below, |nodes| + 2
  {
    if nodes != [] {
      FrameNode(mode, ch, ch', nodes[0], below, todo, todo');
      FrameAll(mode, ch, ch', nodes[1..], Rest(nodes[0], below), todo, todo');
    }
  }

  // ----- One visit -----

  function PartNode(p: Part): Node {
    match p case Plain(v) => TextNode(v) case Tag(t) => MentionNode(t)
  }

  function PartNodes(parts: seq<Part>): seq<Node> {
    if parts == [] then [] else [PartNode(parts[0])] + PartNodes(parts[1..])
  }

  /** The child list the loop builds. */
  ghost function NewNodes(mode: Mode, node: Node): seq<Node>
    requires GoodMode(mode)
  {
    if node.TextNode? then PartNodes(Split(node.value, SpansFor(mode, node.value))) else [node]
  }

  ghost function NewList(mode: Mode, nodes: seq<Node>, wrap: bool): seq<Node>
    requires GoodMode(mode)
  {
    if nodes == [] then []
    else (if wrap then NewNodes(mode, nodes[0]) else [nodes[0]]) + NewList(mode, nodes[1..], wrap)
  }

  ghost predicate NodeSplits(mode: Mode, node: Node)
    requires GoodMode(mode)
  {
    node.TextNode? && |Split(node.value, SpansFor(mode, node.value))| > 1
  }

  ghost predicate ListSplits(mode: Mode, nodes: seq<Node>)
    requires GoodMode(mode)
  {
    nodes != [] && (NodeSplits(mode, nodes[0]) || ListSplits(mode, nodes[1..]))
  }

  /** The elements pushed for later. */
  function ToVisit(nodes: seq<Node>): seq<Element> {
    if nodes == [] then []
    else (if nodes[0].ElementNode? && !NoHighlight(nodes[0].elem.tag) then [nodes[0].elem] else [])
          + ToVisit(nodes[1..])
  }

  ghost predicate NoMentionsYet(nodes: seq<Node>) {
    forall node :: node in nodes ==> !node.MentionNode?
  }

  lemma {:induction false} FinishCons(mode: Mode, ch: Kids, node: Node, nodes: seq<Node>, below: set<Element>,
                                      todo: set<Element>)
    requires GoodMode(mode) && NodeOk(ch, node, below) && AreTrees(ch, nodes, Rest(node, below))
    ensures AreTrees(ch, [node] + nodes, below)
    ensures FinishAll(mode, ch, [node] + nodes, below, todo)
         == [FinishNode(mode, ch, node, below, todo)] + FinishAll(mode, ch, nodes, Rest(node, below), todo)
  {
    assert ([node] + nodes)[1..] == nodes;
  }

  lemma {:induction false} ConsAppend<T>(x: T, a: seq<T>, b: seq<T>)
    ensures ([x] + a) + b == [x] + (a + b)
  {
  }

  lemma {:induction false} PartNodesStep(mode: Mode, ch: Kids, p: Part, parts: seq<Part>, nodes: seq<Node>,
                                         below: set<Element>, todo: set<Element>)
    requires GoodMode(mode) && AreTrees(ch, nodes, below)
    requires AreTrees(ch, PartNodes(parts) + nodes, below)
    requires FinishAll(mode, ch, PartNodes(parts) + nodes, below, todo)
             == PartTrees(parts) + FinishAll(mode, ch, nodes, below, todo)
    ensures AreTrees(ch, [PartNode(p)] + PartNodes(parts) + nodes, below)
    ensures FinishAll(mode, ch, [PartNode(p)] + PartNodes(parts) + nodes, below, todo)
         == [PartTree(p)] + PartTrees(parts) + FinishAll(mode, ch, nodes, below, todo)
  {
    hide FinishAll, AreTrees, PartNodes, PartTrees;
    ConsAppend(PartNode(p), PartNodes(parts), nodes);
    FinishCons(mode, ch, PartNode(p), PartNodes(parts) + nodes, below, todo);
    ConsAppend(PartTree(p), PartTrees(parts), FinishAll(mode, ch, nodes, below, todo));
  }

  lemma {:induction false} PartNodesFinish(mode: Mode, ch: Kids, parts: seq<Part>, nodes: seq<Node>,
                                          below: set<Element>, todo: set<Element>)
    requires GoodMode(mode) && AreTrees(ch, nodes, below)
    ensures AreTrees(ch, PartNodes(parts) + nodes, below)
    ensures FinishAll(mode, ch, PartNodes(parts) + nodes, below, todo)
            == PartTrees(parts) + FinishAll(mode, ch, nodes, below, todo)
    decreases |parts|
  {
    if parts == [] {
      assert PartNodes(parts) + nodes == nodes;
    } else {
      PartNodesFinish(mode, ch, parts[1..], nodes, below, todo);
      PartNodesStep(mode, ch, parts[0], parts[1..], nodes, below, todo);
    }
  }

  /** Child by child, the new list finishes as the rewritten children. */
  lemma {:induction false} VisitList(mode: Mode, ch: Kids, ch': Kids, nodes: seq<Node>, below: set<Element>,
                                     todo: set<Element>, wrap: bool)
    requires GoodMode(mode) && AreTrees(ch, nodes, below) && SameInside(ch, ch', todo, todo, below)
    requires NoMentionsYet(nodes) && forall c :: c in ToVisit(nodes) ==> c in todo
    ensures AreTrees(ch', NewList(mode, nodes, wrap), below)
    ensures FinishAll(mode, ch', NewList(mode, nodes, wrap), below, todo)
            == RewriteKids(mode, AbsAll(ch, nodes, below), wrap)
    decreases |nodes|
  {
    if nodes != [] {
      var node := nodes[0];
      var rest := NewList(mode, nodes[1..], wrap);
      VisitList(mode, ch, ch', nodes[1..], Rest(node, below), todo, wrap);
      FrameNode(mode, ch, ch', node, below, todo, todo);
      VisitNode(mode, ch, ch', node, rest, below, todo, wrap);
      RewriteKidsCons(mode, AbsNode(ch, node, below), AbsAll(ch, nodes[1..], Rest(node, below)), wrap);
    }
  }

  lemma {:induction false} VisitNode(mode: Mode, ch: Kids, ch': Kids, node: Node, rest: seq<Node>, below: set<Element>,
                                     todo: set<Element>, wrap: bool)
    requires GoodMode(mode) && NodeOk(ch, node, below) && NodeOk(ch', node, below)
    requires AbsNode(ch', node, below) == AbsNode(ch, node, below) && !node.MentionNode?
    requires AreTrees(ch', rest, Rest(node, below))
    requires node.ElementNode? && !NoHighlight(node.elem.tag) ==> node.elem in todo
    ensures var all := (if wrap then NewNodes(mode, node) else [node]) + rest;
      && AreTrees(ch', all, below)
      && FinishAll(mode, ch', all, below, todo)
         == RewriteKid(mode, AbsNode(ch, node, below), wrap) + FinishAll(mode, ch', rest, Rest(node, below), todo)
  {
    if wrap && node.TextNode? {
      PartNodesFinish(mode, ch', Split(node.value, SpansFor(mode, node.value)), rest, below, todo);
    } else {
      FinishCons(mode, ch', node, rest, below, todo);
    }
  }

  lemma {:induction false} SomeSplitCons(mode: Mode, kid: Tree, kids: seq<Tree>)
    requires GoodMode(mode)
    ensures SomeSplit(mode, [kid] + kids) <==> TreeSplits(mode, kid) || SomeSplit(mode, kids)
  {
    assert ([kid] + kids)[1..] == kids;
  }

  lemma {:induction false} ListSplitsAbs(mode: Mode, ch: Kids, nodes: seq<Node>, below: set<Element>)
    requires GoodMode(mode) && AreTrees(ch, nodes, below)
    ensures ListSplits(mode, nodes) <==> SomeSplit(mode, AbsAll(ch, nodes, below))
    decreases |nodes|
  {
    if nodes != [] {
      var kid, kids := AbsNode(ch, nodes[0], below), AbsAll(ch, nodes[1..], Rest(nodes[0], below));
      ListSplitsAbs(mode, ch, nodes[1..], Rest(nodes[0], below));
      SomeSplitCons(mode, kid, kids);
      KidSplits(mode, ch, nodes[0], below);
      assert ListSplits(mode, nodes) <==> NodeSplits(mode, nodes[0]) || SomeSplit(mode, kids);
      assert AbsAll(ch, nodes, below) == [kid] + kids;
    }
  }

  ghost predicate TreeSplits(mode: Mode, kid: Tree)
    requires GoodMode(mode)
  {
    kid.TText? && |Split(kid.value, SpansFor(mode, kid.value))| > 1
  }

  lemma {:induction false} KidSplits(mode: Mode, ch: Kids, node: Node, below: set<Element>)
    requires GoodMode(mode) && NodeOk(ch, node, below)
    ensures NodeSplits(mode, node) <==> TreeSplits(mode, AbsNode(ch, node, below))
  {
  }

  /** A visit leaves the element as the recursive rewrite would, once its
      pushed children are done. */
  lemma {:induction false} VisitFinishes(mode: Mode, ch: Kids, n: Element, todo: set<Element>)
    requires GoodMode(mode) && IsTree(ch, n) && NoMentionsYet(ch[n]) && n !in todo
    requires forall c :: c in ToVisit(ch[n]) ==> c in todo
    ensures var ch' := ch[n := NewList(mode, ch[n], ListSplits(mode, ch[n]))];
      IsTree(ch', n) && Finish(mode, ch', n, todo) == Rewrite(mode, Abs(ch, n))
  {
    var wrap := ListSplits(mode, ch[n]);
    var ch' := ch[n := NewList(mode, ch[n], wrap)];
    ListSplitsAbs(mode, ch, ch[n], n.repr - {n});
    VisitList(mode, ch, ch', ch[n], n.repr - {n}, todo, wrap);
  }

  /** ... and the rest of the document does not notice. */
  lemma {:induction false} VisitIsLocal(mode: Mode, ch: Kids, ch': Kids, e: Element, n: Element, todo: set<Element>,
                                        todo': set<Element>)
    requires GoodMode(mode) && IsTree(ch, e) && Open(ch, e, n) && Elsewhere(ch, ch', n, todo, todo')
    requires IsTree(ch', n) && IsTree(ch, n) && Finish(mode, ch', n, todo') == Finish(mode, ch, n, todo)
    ensures IsTree(ch', e) && Finish(mode, ch', e, todo') == Finish(mode, ch, e, todo)
    decreases e.repr, 0
  {
    if e != n {
      OpenAllInside(ch, ch[e], e.repr - {e}, n);
      assert n in e.repr && e !in n.repr;
      VisitIsLocalAll(mode, ch, ch', ch[e], e.repr - {e}, n, todo, todo');
    }
  }

  /** Only the list of `n` changed, only work inside `n` changed, and no
      element above `n` is waiting. */
  ghost predicate Elsewhere(ch: Kids, ch': Kids, n: Element, todo: set<Element>, todo': set<Element>) {
    && (forall x :: x in ch && x != n ==> x in ch' && ch'[x] == ch[x])
    && (forall x :: x in todo && x !in n.repr ==> x in todo') && (forall x :: x in todo' && x !in n.repr ==> x in todo)
    && (forall x :: x in todo && n in x.repr ==> x == n)
  }

  lemma {:induction false} VisitIsLocalAll(mode: Mode, ch: Kids, ch': Kids, nodes: seq<Node>, below: set<Element>,
                                          n: Element,
                                           todo: set<Element>, todo': set<Element>)
    requires GoodMode(mode) && AreTrees(ch, nodes, below) && OpenAll(ch, nodes, below, n)
             && Elsewhere(ch, ch', n, todo, todo')
    requires IsTree(ch', n) && IsTree(ch, n) && Finish(mode, ch', n, todo') == Finish(mode, ch, n, todo)
    ensures AreTrees(ch', nodes, below)
            && FinishAll(mode, ch', nodes, below, todo') == FinishAll(mode, ch, nodes, below, todo)
    decreases below, |nodes| + 2
  {
    var node, below' := nodes[0], Rest(nodes[0], below);
    if OpenNode(ch, node, below, n) {
      OpenInside(ch, node.elem, n);
      VisitIsLocal(mode, ch, ch', node.elem, n, todo, todo');
      SiblingsUntouched(mode, ch, ch', nodes[1..], below', n, todo, todo');
    } else {
      VisitIsLocalAll(mode, ch, ch', nodes[1..], below', n, todo, todo');
      HeadUntouched(mode, ch, ch', node, nodes[1..], below, n, todo, todo');
    }
    FinishGlue(mode, ch, ch', node, nodes[1..], below, todo, todo');
    HeadTail(nodes);
  }

  lemma {:induction false} SiblingsUntouched(mode: Mode, ch: Kids, ch': Kids, nodes: seq<Node>, below: set<Element>,
                                          n: Element, todo: set<Element>, todo': set<Element>)
    requires GoodMode(mode) && AreTrees(ch, nodes, below) && n !in below && n.repr !! below
             && Elsewhere(ch, ch', n, todo, todo')
    ensures AreTrees(ch', nodes, below)
            && FinishAll(mode, ch', nodes, below, todo') == FinishAll(mode, ch, nodes, below, todo)
  {
    FrameAll(mode, ch, ch', nodes, below, todo, todo');
  }

  lemma {:induction false} HeadUntouched(mode: Mode, ch: Kids, ch': Kids, node: Node, nodes: seq<Node>,
                                         below: set<Element>, n: Element,
                      todo: set<Element>, todo': set<Element>)
    requires GoodMode(mode) && NodeOk(ch, node, below) && AreTrees(ch, nodes, Rest(node, below))
             && Elsewhere(ch, ch', n, todo, todo')
    requires OpenAll(ch, nodes, Rest(node, below), n)
    ensures NodeOk(ch', node, below)
            && FinishNode(mode, ch', node, below, todo') == FinishNode(mode, ch, node, below, todo)
  {
    OpenAllInside(ch, nodes, Rest(node, below), n);
    if node.ElementNode? { Frame(mode, ch, ch', node.elem, todo, todo'); }
  }

  lemma {:induction false} FinishGlue(mode: Mode, ch: Kids, ch': Kids, node: Node, nodes: seq<Node>,
                                      below: set<Element>, todo: set<Element>, todo': set<Element>)
    requires GoodMode(mode) && NodeOk(ch, node, below) && AreTrees(ch, nodes, Rest(node, below))
    requires NodeOk(ch', node, below) && AreTrees(ch', nodes, Rest(node, below))
    requires FinishNode(mode, ch', node, below, todo') == FinishNode(mode, ch, node, below, todo)
    requires FinishAll(mode, ch', nodes, Rest(node, below), todo')
             == FinishAll(mode, ch, nodes, Rest(node, below), todo)
    ensures AreTrees(ch', [node] + nodes, below)
    ensures AreTrees(ch, [node] + nodes, below)
    ensures FinishAll(mode, ch', [node] + nodes, below, todo') == FinishAll(mode, ch, [node] + nodes, below, todo)
  {
    FinishCons(mode, ch, node, nodes, below, todo);
    FinishCons(mode, ch', node, nodes, below, todo');
  }

  // ----- The waiting elements -----

  /** `x` stays open when `n` has been visited. */
  lemma {:induction false} OpenKept(mode: Mode, ch: Kids, ch': Kids, e: Element, n: Element, wrap: bool, x: Element)
    requires GoodMode(mode) && IsTree(ch, e) && n in ch && ch' == ch[n := NewList(mode, ch[n], wrap)]
    ensures IsTree(ch', e) && (Open(ch, e, x) ==> Open(ch', e, x))
    decreases e.repr, 0
  {
    OpenKeptAll(mode, ch, ch', ch[e], e.repr - {e}, n, wrap, x, e == n && wrap);
    if !(e == n && wrap) { NewListSame(mode, ch[e]); }
  }

  lemma {:induction false} NewListSame(mode: Mode, nodes: seq<Node>)
    requires GoodMode(mode)
    ensures NewList(mode, nodes, false) == nodes
  {
    if nodes != [] { NewListSame(mode, nodes[1..]); }
  }

  lemma {:induction false} PartNodesOpen(ch: Kids, parts: seq<Part>, nodes: seq<Node>, below: set<Element>, x: Element)
    requires AreTrees(ch, nodes, below)
    ensures AreTrees(ch, PartNodes(parts) + nodes, below)
    ensures OpenAll(ch, PartNodes(parts) + nodes, below, x) == OpenAll(ch, nodes, below, x)
    decreases |parts|
  {
    if parts == [] {
      assert PartNodes(parts) + nodes == nodes;
    } else {
      PartNodesOpen(ch, parts[1..], nodes, below, x);
      ConsAppend(PartNode(parts[0]), PartNodes(parts[1..]), nodes);
      OpenCons(ch, PartNode(parts[0]), PartNodes(parts[1..]) + nodes, below, x);
    }
  }

  lemma {:induction false} OpenCons(ch: Kids, node: Node, nodes: seq<Node>, below: set<Element>, x: Element)
    requires NodeOk(ch, node, below) && AreTrees(ch, nodes, Rest(node, below))
    ensures AreTrees(ch, [node] + nodes, below)
    ensures OpenAll(ch, [node] + nodes, below, x)
            <==> OpenNode(ch, node, below, x) || OpenAll(ch, nodes, Rest(node, below), x)
  {
    assert ([node] + nodes)[1..] == nodes;
  }

  lemma {:induction false} OpenKeptAll(mode: Mode, ch: Kids, ch': Kids, nodes: seq<Node>, below: set<Element>,
                                       n: Element, wrap: bool,
                                       x: Element, expand: bool)
    requires GoodMode(mode) && AreTrees(ch, nodes, below) && n in ch && ch' == ch[n := NewList(mode, ch[n], wrap)]
    ensures AreTrees(ch', NewList(mode, nodes, expand), below)
    ensures OpenAll(ch, nodes, below, x) ==> OpenAll(ch', NewList(mode, nodes, expand), below, x)
    decreases below, |nodes| + 2
  {
    if nodes != [] {
      var node, rest := nodes[0], NewList(mode, nodes[1..], expand);
      OpenKeptAll(mode, ch, ch', nodes[1..], Rest(node, below), n, wrap, x, expand);
      if node.ElementNode? { OpenKept(mode, ch, ch', node.elem, n, wrap, x); }
      OpenKeptNode(mode, ch, ch', node, rest, below, x, expand);
    }
  }

  lemma {:induction false} OpenKeptNode(mode: Mode, ch: Kids, ch': Kids, node: Node, rest: seq<Node>,
                                        below: set<Element>, x: Element, expand: bool)
    requires GoodMode(mode) && NodeOk(ch, node, below) && NodeOk(ch', node, below)
             && AreTrees(ch', rest, Rest(node, below))
    requires OpenNode(ch, node, below, x) ==> OpenNode(ch', node, below, x)
    ensures var all := (if expand then NewNodes(mode, node) else [node]) + rest;
      AreTrees(ch', all, below)
      && (OpenNode(ch, node, below, x) || OpenAll(ch', rest, Rest(node, below), x) ==> OpenAll(ch', all, below, x))
  {
    if expand && node.TextNode? {
      PartNodesOpen(ch', Split(node.value, SpansFor(mode, node.value)), rest, below, x);
    } else {
      OpenCons(ch', node, rest, below, x);
    }
  }

  ghost predicate AllTrees(ch: Kids, es: seq<Element>) {
    forall x :: x in es ==> IsTree(ch, x)
  }

  ghost function SumVisits(ch: Kids, es: seq<Element>): nat
    requires AllTrees(ch, es)
  {
    if es == [] then 0 else Visits(Abs(ch, es[0])) + SumVisits(ch, es[1..])
  }

  lemma {:induction false} SumVisitsAppend(ch: Kids, a: seq<Element>, b: seq<Element>)
    requires AllTrees(ch, a) && AllTrees(ch, b)
    ensures AllTrees(ch, a + b) && SumVisits(ch, a + b) == SumVisits(ch, a) + SumVisits(ch, b)
    decreases |a|
  {
    if a == [] {
      assert a + b == b;
    } else {
      SumVisitsAppend(ch, a[1..], b);
      assert (a + b)[1..] == a[1..] + b;
    }
  }

  /** Subtrees that `n` is not in. */
  ghost predicate Apart(es: seq<Element>, n: Element) {
    forall x :: x in es ==> n !in x.repr
  }

  lemma {:induction false} SumVisitsFrame(mode: Mode, ch: Kids, ch': Kids, n: Element, es: seq<Element>)
    requires GoodMode(mode) && AllTrees(ch, es) && Apart(es, n)
             && forall x :: x in ch && x != n ==> x in ch' && ch'[x] == ch[x]
    ensures AllTrees(ch', es) && SumVisits(ch', es) == SumVisits(ch, es)
    decreases |es|
  {
    forall x | x in es
      ensures IsTree(ch', x)
    {
      Frame(mode, ch, ch', x, {}, {});
    }
    if es != [] {
      Frame(mode, ch, ch', es[0], {}, {});
      SumVisitsFrame(mode, ch, ch', n, es[1..]);
    }
  }

  ghost predicate Disjoint(es: seq<Element>) {
    forall i, j :: 0 <= i < j < |es| ==> es[i].repr !! es[j].repr
  }

  ghost predicate Under(es: seq<Element>, below: set<Element>) {
    forall x :: x in es ==> x in x.repr && x.repr <= below
  }

  lemma {:induction false} ToVisitFacts(ch: Kids, nodes: seq<Node>, below: set<Element>)
    requires AreTrees(ch, nodes, below)
    ensures AllTrees(ch, ToVisit(nodes)) && Under(ToVisit(nodes), below) && Disjoint(ToVisit(nodes))
    ensures forall c :: c in ToVisit(nodes) ==> OpenAll(ch, nodes, below, c)
    decreases |nodes|
  {
    if nodes != [] {
      ToVisitFacts(ch, nodes[1..], Rest(nodes[0], below));
      forall c | c in ToVisit(nodes)
        ensures OpenAll(ch, nodes, below, c)
      {
        if c !in ToVisit(nodes[1..]) { assert OpenNode(ch, nodes[0], below, c); }
      }
    }
  }

  lemma {:induction false} ToVisitCount(ch: Kids, nodes: seq<Node>, below: set<Element>)
    requires AreTrees(ch, nodes, below) && AllTrees(ch, ToVisit(nodes)) && NoMentionsYet(nodes)
    ensures SumVisits(ch, ToVisit(nodes)) == VisitsBelow(AbsAll(ch, nodes, below))
    decreases |nodes|
  {
    if nodes != [] {
      var node, below' := nodes[0], Rest(nodes[0], below);
      ToVisitFacts(ch, nodes[1..], below');
      ToVisitCount(ch, nodes[1..], below');
      VisitsCons(AbsNode(ch, node, below), AbsAll(ch, nodes[1..], below'));
      assert AbsAll(ch, nodes, below) == [AbsNode(ch, node, below)] + AbsAll(ch, nodes[1..], below');
      if node.ElementNode? && !NoHighlight(node.elem.tag) {
        assert ToVisit(nodes)[1..] == ToVisit(nodes[1..]);
      } else {
        assert node in nodes;
        assert ToVisit(nodes) == ToVisit(nodes[1..]);
      }
    }
  }

  lemma {:induction false} VisitsCons(kid: Tree, kids: seq<Tree>)
    ensures VisitsBelow([kid] + kids)
            == (if kid.TElem? && !NoHighlight(kid.tag) then Visits(kid) else 0) + VisitsBelow(kids)
  {
    assert ([kid] + kids)[1..] == kids;
  }

  ghost function Todo(stack: seq<Element>): set<Element> {
    set x | x in stack
  }

  /** `x` is an open subtree not yet touched. */
  ghost predicate Waits(ch: Kids, root: Element, x: Element)
    requires IsTree(ch, root)
  {
    x in x.repr && IsTree(ch, x) && Open(ch, root, x) && forall y :: y in x.repr && y in ch ==> NoMentionsYet(ch[y])
  }

  /** What is on the stack. */
  ghost predicate Waiting(ch: Kids, root: Element, stack: seq<Element>)
    requires IsTree(ch, root)
  {
    AllTrees(ch, stack) && Disjoint(stack) && forall x :: x in stack ==> Waits(ch, root, x)
  }

  ghost function AfterVisit(mode: Mode, ch: Kids, n: Element): Kids
    requires GoodMode(mode) && n in ch
  {
    ch[n := NewList(mode, ch[n], ListSplits(mode, ch[n]))]
  }

  lemma {:induction false} Popped(rest: seq<Element>, n: Element)
    requires Disjoint(rest + [n]) && n in n.repr
    ensures Disjoint(rest) && n !in rest && forall x :: x in rest ==> x.repr !! n.repr
  {
    var stack := rest + [n];
    forall i | 0 <= i < |rest|
      ensures rest[i].repr !! n.repr
    {
      assert stack[i].repr !! stack[|rest|].repr;
    }
    assert forall i :: 0 <= i < |rest| ==> stack[i] == rest[i];
  }

  lemma {:induction false} DisjointJoin(a: seq<Element>, b: seq<Element>, below: set<Element>)
    requires Disjoint(a) && Disjoint(b) && Under(b, below) && forall x :: x in a ==> x.repr !! below
    ensures Disjoint(a + b)
  {
    forall i, j | 0 <= i < j < |a + b|
      ensures (a + b)[i].repr !! (a + b)[j].repr
    {
      if i < |a| <= j { assert b[j - |a|] in b; }
    }
  }

  lemma {:induction false} VisitKeepsOpen(mode: Mode, ch: Kids, root: Element, n: Element, x: Element)
    requires GoodMode(mode) && IsTree(ch, root) && n in ch
    ensures IsTree(AfterVisit(mode, ch, n), root) && (Open(ch, root, x) ==> Open(AfterVisit(mode, ch, n), root, x))
  {
    OpenKept(mode, ch, AfterVisit(mode, ch, n), root, n, ListSplits(mode, ch[n]), x);
  }

  /** An element that waited, or was pushed, is still open and untouched. */
  lemma {:induction false} StillWaits(mode: Mode, ch: Kids, root: Element, n: Element, x: Element)
    requires GoodMode(mode) && IsTree(ch, root) && Open(ch, root, n) && n in ch && n !in x.repr && Waits(ch, root, x)
    ensures IsTree(AfterVisit(mode, ch, n), root) && Waits(AfterVisit(mode, ch, n), root, x)
  {
    VisitKeepsOpen(mode, ch, root, n, x);
    OpenInside(AfterVisit(mode, ch, n), root, x);
  }

  /** The children pushed wait in their turn. */
  lemma {:induction false} PushedWaits(ch: Kids, root: Element, n: Element, x: Element)
    requires IsTree(ch, root) && Waits(ch, root, n) && x in ToVisit(ch[n])
    ensures Waits(ch, root, x) && n !in x.repr
  {
    ToVisitFacts(ch, ch[n], n.repr - {n});
    OpenFurther(ch, root, n, x);
  }

  /** Popping `n` leaves `rest` waiting, and its children join. */
  lemma {:induction false} VisitKeepsWaiting(mode: Mode, ch: Kids, root: Element, rest: seq<Element>, n: Element)
    requires GoodMode(mode) && IsTree(ch, root) && Waiting(ch, root, rest + [n])
    ensures n in ch && IsTree(AfterVisit(mode, ch, n), root)
    ensures Waiting(AfterVisit(mode, ch, n), root, rest + ToVisit(ch[n]))
  {
    assert n in rest + [n] && forall x :: x in rest ==> x in rest + [n];
    var more := ToVisit(ch[n]);
    Popped(rest, n);
    ToVisitFacts(ch, ch[n], n.repr - {n});
    DisjointJoin(rest, more, n.repr - {n});
    VisitKeepsOpen(mode, ch, root, n, n);
    forall x | x in rest + more
      ensures Waits(AfterVisit(mode, ch, n), root, x)
    {
      if x in more { PushedWaits(ch, root, n, x); }
      StillWaits(mode, ch, root, n, x);
    }
  }

  /** An open child of an open element is open. */
  lemma {:induction false} OpenFurther(ch: Kids, e: Element, n: Element, x: Element)
    requires IsTree(ch, e) && Open(ch, e, n) && IsTree(ch, n) && OpenAll(ch, ch[n], n.repr - {n}, x)
    ensures Open(ch, e, x)
    decreases e.repr, 0
  {
    if e != n { OpenFurtherAll(ch, ch[e], e.repr - {e}, n, x); }
  }

  lemma {:induction false} OpenFurtherAll(ch: Kids, nodes: seq<Node>, below: set<Element>, n: Element, x: Element)
    requires AreTrees(ch, nodes, below) && OpenAll(ch, nodes, below, n) && IsTree(ch, n)
             && OpenAll(ch, ch[n], n.repr - {n}, x)
    ensures OpenAll(ch, nodes, below, x)
    decreases below, |nodes| + 2
  {
    if OpenNode(ch, nodes[0], below, n) {
      OpenFurther(ch, nodes[0].elem, n, x);
    } else {
      OpenFurtherAll(ch, nodes[1..], Rest(nodes[0], below), n, x);
    }
  }

  lemma {:induction false} PopIsElsewhere(ch: Kids, ch': Kids, rest: seq<Element>, n: Element, more: seq<Element>)
    requires Disjoint(rest + [n]) && n in n.repr && Under(more, n.repr - {n})
    requires forall x :: x in rest ==> x in x.repr
    requires forall x :: x in ch && x != n ==> x in ch' && ch'[x] == ch[x]
    ensures Elsewhere(ch, ch', n, Todo(rest + [n]), Todo(rest + more))
    ensures n !in Todo(rest + more) && forall c :: c in more ==> c in Todo(rest + more)
  {
    Popped(rest, n);
  }

  /** What waits for its visit is still to be rewritten. */
  lemma {:induction false} FinishOfTodo(mode: Mode, ch: Kids, n: Element, todo: set<Element>)
    requires GoodMode(mode) && IsTree(ch, n) && n in todo
    ensures Finish(mode, ch, n, todo) == Rewrite(mode, Abs(ch, n))
  {
  }

  /** ... keeps the finished document, and takes one off the visits to come. */
  lemma {:induction false} VisitKeepsFinish(mode: Mode, ch: Kids, root: Element, rest: seq<Element>, n: Element)
    requires GoodMode(mode) && IsTree(ch, root) && Waiting(ch, root, rest + [n])
    requires n in ch && IsTree(AfterVisit(mode, ch, n), root)
    ensures Finish(mode, AfterVisit(mode, ch, n), root, Todo(rest + ToVisit(ch[n])))
            == Finish(mode, ch, root, Todo(rest + [n]))
  {
    hide Finish, Rewrite, Abs;
    assert n in rest + [n] && forall x :: x in rest ==> x in rest + [n];
    var ch' := AfterVisit(mode, ch, n);
    var todo, todo' := Todo(rest + [n]), Todo(rest + ToVisit(ch[n]));
    ToVisitFacts(ch, ch[n], n.repr - {n});
    PopIsElsewhere(ch, ch', rest, n, ToVisit(ch[n]));
    VisitFinishes(mode, ch, n, todo');
    FinishOfTodo(mode, ch, n, todo);
    VisitIsLocal(mode, ch, ch', root, n, todo, todo');
  }

  lemma {:induction false} VisitCounts(mode: Mode, ch: Kids, root: Element, rest: seq<Element>, n: Element)
    requires GoodMode(mode) && IsTree(ch, root) && Waiting(ch, root, rest + [n]) && n in ch
    requires AllTrees(AfterVisit(mode, ch, n), rest + ToVisit(ch[n]))
    ensures SumVisits(AfterVisit(mode, ch, n), rest + ToVisit(ch[n])) + 1 == SumVisits(ch, rest + [n])
  {
    assert n in rest + [n] && forall x :: x in rest ==> x in rest + [n];
    var more := ToVisit(ch[n]);
    var ch' := AfterVisit(mode, ch, n);
    Popped(rest, n);
    ToVisitFacts(ch, ch[n], n.repr - {n});
    ToVisitCount(ch, ch[n], n.repr - {n});
    SumVisitsFrame(mode, ch, ch', n, rest);
    SumVisitsFrame(mode, ch, ch', n, more);
    SumVisitsAppend(ch', rest, more);
    SumVisitsAppend(ch, rest, [n]);
    SumVisitsOne(ch, n);
  }

  lemma {:induction false} SumVisitsOne(ch: Kids, n: Element)
    requires IsTree(ch, n)
    ensures SumVisits(ch, [n]) == 1 + VisitsBelow(AbsAll(ch, ch[n], n.repr - {n}))
  {
    assert [n][1..] == [];
  }

  // ----- The walk -----

  /** Everything the walk keeps between two visits. */
  ghost predicate Walking(mode: Mode, ch0: Kids, ch: Kids, root: Element, stack: seq<Element>, visited: nat)
    requires GoodMode(mode) && IsTree(ch0, root)
  {
    && IsTree(ch, root) && Waiting(ch, root, stack)
    && Finish(mode, ch, root, Todo(stack)) == Rewrite(mode, Abs(ch0, root))
    && visited + SumVisits(ch, stack) == Visits(Abs(ch0, root))
  }

  lemma {:induction false} WalkStarts(mode: Mode, ch: Kids, root: Element)
    requires GoodMode(mode) && IsTree(ch, root) && forall x :: x in root.repr && x in ch ==> NoMentionsYet(ch[x])
    ensures Walking(mode, ch, ch, root, [root], 0)
  {
    WaitingAtFirst(ch, root);
    SumVisitsAtFirst(ch, root);
    assert root in Todo([root]);
  }

  lemma {:induction false} WaitingAtFirst(ch: Kids, root: Element)
    requires IsTree(ch, root) && forall x :: x in root.repr && x in ch ==> NoMentionsYet(ch[x])
    ensures Waiting(ch, root, [root])
  {
    assert forall x :: x in [root] <==> x == root;
  }

  lemma {:induction false} SumVisitsAtFirst(ch: Kids, root: Element)
    requires IsTree(ch, root)
    ensures AllTrees(ch, [root]) && SumVisits(ch, [root]) == Visits(Abs(ch, root))
  {
    SumVisitsOne(ch, root);
  }

  lemma {:induction false} WalkGoesOn(mode: Mode, ch0: Kids, ch: Kids, root: Element, rest: seq<Element>, n: Element,
                                      visited: nat)
    requires GoodMode(mode) && IsTree(ch0, root) && Walking(mode, ch0, ch, root, rest + [n], visited)
    ensures n in ch && n in root.repr
            && Walking(mode, ch0, AfterVisit(mode, ch, n), root, rest + ToVisit(ch[n]), visited + 1)
  {
    assert n in rest + [n];
    OpenInside(ch, root, n);
    VisitKeepsWaiting(mode, ch, root, rest, n);
    VisitKeepsFinish(mode, ch, root, rest, n);
    VisitCounts(mode, ch, root, rest, n);
  }

  /** When it stops: the whole rewrite if nothing waits, and in any case the
      same text and the same `code`/`pre` subtrees. */
  lemma {:induction false} WalkStops(mode: Mode, ch0: Kids, ch: Kids, root: Element, stack: seq<Element>, visited: nat)
    requires GoodMode(mode) && IsTree(ch0, root) && Walking(mode, ch0, ch, root, stack, visited)
    ensures IsTree(ch, root)
    ensures stack == [] ==> Abs(ch, root) == Rewrite(mode, Abs(ch0, root))
    ensures Flat(Abs(ch, root)) == Flat(Abs(ch0, root)) && Blocks(Abs(ch, root).kids) == Blocks(Abs(ch0, root).kids)
    ensures stack != [] ==> visited < Visits(Abs(ch0, root))
  {
    FinishKeepsText(mode, ch, root, Todo(stack));
    RewriteKeepsText(mode, Abs(ch0, root));
    if stack == [] {
      assert Todo(stack) == {};
      FinishNothing(mode, ch, root);
    }
  }

  ghost function Snapshot(root: Element): Kids
    reads root.repr
  {
    map e | e in root.repr :: e.children
  }

  lemma {:induction false} AssocStep<T>(done: seq<T>, part: seq<T>, rest: seq<T>, all: seq<T>, whole: seq<T>)
    requires done + all == whole && all == part + rest
    ensures (done + part) + rest == whole
  {
  }

  lemma {:induction false} TailOfTail<T>(s: seq<T>, i: nat)
    requires i < |s|
    ensures s[i..] != [] && s[i..][0] == s[i] && s[i..][1..] == s[i + 1..]
  {
  }

  lemma {:induction false} NothingLeft<T>(s: seq<T>)
    ensures s[|s|..] == []
  {
  }

  lemma {:induction false} NewListStep(mode: Mode, nodes: seq<Node>, i: nat, done: seq<Node>)
    requires GoodMode(mode) && i < |nodes|
    requires done + NewList(mode, nodes[i..], true) == NewList(mode, nodes, true)
    ensures (done + NewNodes(mode, nodes[i])) + NewList(mode, nodes[i + 1..], true) == NewList(mode, nodes, true)
  {
    TailOfTail(nodes, i);
    AssocStep(done, NewNodes(mode, nodes[i]), NewList(mode, nodes[i + 1..], true), NewList(mode, nodes[i..], true),
        NewList(mode, nodes, true));
  }

  function Pushes(node: Node): seq<Element> {
    if node.ElementNode? && !NoHighlight(node.elem.tag) then [node.elem] else []
  }

  lemma {:induction false} ToVisitStep(nodes: seq<Node>, i: nat, done: seq<Element>)
    requires i < |nodes| && done + ToVisit(nodes[i..]) == ToVisit(nodes)
    ensures (done + Pushes(nodes[i])) + ToVisit(nodes[i + 1..]) == ToVisit(nodes)
  {
    TailOfTail(nodes, i);
    AssocStep(done, Pushes(nodes[i]), ToVisit(nodes[i + 1..]), ToVisit(nodes[i..]), ToVisit(nodes));
  }

  lemma {:induction false} ListSplitsStep(mode: Mode, nodes: seq<Node>, i: nat)
    requires GoodMode(mode) && i < |nodes|
    ensures ListSplits(mode, nodes[i..]) <==> NodeSplits(mode, nodes[i]) || ListSplits(mode, nodes[i + 1..])
  {
    TailOfTail(nodes, i);
  }

  /** What the loop has built after `i` children. */
  ghost predicate Built(mode: Mode, nodes: seq<Node>, i: nat, next: seq<Node>, changed: bool, push: seq<Element>)
    requires GoodMode(mode) && i <= |nodes|
  {
    && next + NewList(mode, nodes[i..], true) == NewList(mode, nodes, true)
    && (changed || ListSplits(mode, nodes[i..]) <==> ListSplits(mode, nodes))
    && push + ToVisit(nodes[i..]) == ToVisit(nodes)
  }

  lemma {:induction false} BuiltStep(mode: Mode, nodes: seq<Node>, i: nat, next: seq<Node>, changed: bool,
                                     push: seq<Element>)
    requires GoodMode(mode) && i < |nodes| && Built(mode, nodes, i, next, changed, push)
    ensures Built(mode, nodes, i + 1, next + NewNodes(mode, nodes[i]), changed
            || NodeSplits(mode, nodes[i]), push + Pushes(nodes[i]))
  {
    NewListStep(mode, nodes, i, next);
    ToVisitStep(nodes, i, push);
    ListSplitsStep(mode, nodes, i);
  }

  lemma {:induction false} BuiltAll(mode: Mode, nodes: seq<Node>, next: seq<Node>, changed: bool, push: seq<Element>)
    requires GoodMode(mode) && Built(mode, nodes, |nodes|, next, changed, push)
    ensures next == NewList(mode, nodes, true) && changed == ListSplits(mode, nodes) && push == ToVisit(nodes)
  {
    NothingLeft(nodes);
  }

  /** The child list of one element, rebuilt, and the elements to visit. */
  method Rebuild(mode: Mode, nodes: seq<Node>) returns (next: seq<Node>, changed: bool, push: seq<Element>)
    requires GoodMode(mode)
    ensures next == NewList(mode, nodes, true) && changed == ListSplits(mode, nodes) && push == ToVisit(nodes)
  {
    next, changed, push := [], false, [];
    for i := 0 to |nodes|
      invariant Built(mode, nodes, i, next, changed, push)
    {
      var child := nodes[i];
      BuiltStep(mode, nodes, i, next, changed, push);
      if child.TextNode? {
        var parts := Parts(child.value, mode);
        if |parts| > 1 {
          changed := true;
        }
        next := next + PartNodes(parts);
        assert push + Pushes(child) == push;
      } else {
        next := next + [child];
        if child.ElementNode? && !NoHighlight(child.elem.tag) {
          push := push + [child.elem];
        } else {
          assert push + Pushes(child) == push;
        }
      }
    }
    BuiltAll(mode, nodes, next, changed, push);
  }

  lemma {:induction false} LastOff<T>(s: seq<T>)
    requires s != []
    ensures s[..|s| - 1] + [s[|s| - 1]] == s
  {
  }

  lemma {:induction false} SameEntry<K, V>(m: map<K, V>, k: K)
    requires k in m
    ensures m[k := m[k]] == m
  {
  }

  /** An assignment to one element's child list. */
  method Replace(root: Element, node: Element, next: seq<Node>)
    requires node in root.repr
    modifies node
    ensures Snapshot(root) == old(Snapshot(root))[node := next]
  {
    node.children := next;
  }

  /** One turn of the walk: the child list is replaced when a text of it split. */
  method Visit(root: Element, node: Element, mode: Mode) returns (push: seq<Element>)
    requires GoodMode(mode) && node in root.repr
    modifies node
    ensures Snapshot(root) == AfterVisit(mode, old(Snapshot(root)), node) && push == ToVisit(old(node.children))
  {
    var next, changed;
    next, changed, push := Rebuild(mode, node.children);
    if changed {
      Replace(root, node, next);
    } else {
      NewListSame(mode, node.children);
      SameEntry(Snapshot(root), node);
    }
  }

  /** `rehypeMentions`: it ends, keeps the document's text and its `code`/`pre`
      subtrees, and below the cap does the recursive rewrite. */
  method RehypeMentions(root: Element, mode: Mode)
    requires GoodMode(mode) && IsTree(Snapshot(root), root)
    requires forall x :: x in root.repr ==> NoMentionsYet(x.children)
    modifies root.repr
    ensures IsTree(Snapshot(root), root)
    ensures var before, after := old(Abs(Snapshot(root), root)), Abs(Snapshot(root), root);
      && Flat(after) == Flat(before) && Blocks(after.kids) == Blocks(before.kids)
      && (Visits(before) <= 100_000 ==> after == Rewrite(mode, before))
  {
    ghost var ch0 := Snapshot(root);
    WalkStarts(mode, ch0, root);
    var stack := [root];
    var visited := 0;
    ghost var done := 0;
    while |stack| > 0
      invariant Walking(mode, ch0, Snapshot(root), root, stack, done)
      invariant visited == done <= NODE_CAP
      decreases Visits(Abs(ch0, root)) - done
    {
      visited := visited + 1;
      if visited > NODE_CAP {
        break;
      }
      var node := stack[|stack| - 1];
      ghost var ch := Snapshot(root);
      LastOff(stack);
      stack := stack[..|stack| - 1];
      WalkGoesOn(mode, ch0, ch, root, stack, node, done);
      var push := Visit(root, node, mode);
      stack := stack + push;
      done := done + 1;
    }
    WalkStops(mode, ch0, Snapshot(root), root, stack, done);
  }
}
