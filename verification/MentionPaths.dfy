/** Where each leaf of a document goes when its mentions are highlighted, said
    with paths: a path names a node by the child numbers that lead to it. */
module MentionPaths {
  import opened Results
  import opened Mentions
  import opened MentionTree

  type Path = seq<nat>

  function Chars(s: string): Text
    requires forall i :: 0 <= i < |s| ==> s[i] < '\U{0080}'
  {
    seq(|s|, (i: nat) requires i < |s| => s[i] as int as CodeUnit)
  }

  predicate IsCode(t: Tree) {
    t.TElem? && (t.tag == Chars("code") || t.tag == Chars("pre"))
  }

  predicate Reaches(t: Tree, p: Path)
    decreases p
  {
    p == [] || (t.TElem? && p[0] < |t.kids| && Reaches(t.kids[p[0]], p[1..]))
  }

  function NodeAt(t: Tree, p: Path): Tree
    requires Reaches(t, p)
    decreases p
  {
    if p == [] then t else NodeAt(t.kids[p[0]], p[1..])
  }

  /** A `code` or `pre` element lies between the root and the node. */
  predicate InCode(t: Tree, p: Path)
    requires Reaches(t, p)
    decreases p
  {
    |p| > 1 && (IsCode(t.kids[p[0]]) || InCode(t.kids[p[0]], p[1..]))
  }

  /** Some text among these children splits into more than one part. */
  ghost predicate AnySplits(mode: Mode, kids: seq<Tree>)
    requires GoodMode(mode)
  {
    exists k :: 0 <= k < |kids| && kids[k].TText? && |Split(kids[k].value, SpansFor(mode, kids[k].value))| > 1
  }

  /** How many nodes a child becomes. */
  ghost function Width(mode: Mode, kids: seq<Tree>, i: nat): nat
    requires GoodMode(mode) && i < |kids|
  {
    if kids[i].TText? && AnySplits(mode, kids) then |Split(kids[i].value, SpansFor(mode, kids[i].value))| else 1
  }

  /** How many nodes the first `i` children become. */
  ghost function Shift(mode: Mode, kids: seq<Tree>, i: nat): nat
    requires GoodMode(mode) && i <= |kids|
  {
    if i == 0 then 0 else Shift(mode, kids, i - 1) + Width(mode, kids, i - 1)
  }

  /** Where the node at `p` is found again: only texts that split move what
      comes after them, and nothing in `code` or `pre` moves. */
  ghost function Moved(mode: Mode, t: Tree, p: Path): Path
    requires GoodMode(mode) && Reaches(t, p)
    decreases p
  {
    if p == [] then []
    else [Shift(mode, t.kids, p[0])]
         + if IsCode(t.kids[p[0]]) then p[1..] else Moved(mode, t.kids[p[0]], p[1..])
  }

  /** The node is the `k`-th part of a split text. */
  predicate IsPart(t: Tree, p: Part) {
    match p
    case Plain(v) => t == TText(v)
    case Tag(v) => t == TElem(Chars("span"), Chars("mention"), [TText(v)])
  }

  lemma {:induction false} Literals()
    ensures CODE == Chars("code") && PRE == Chars("pre") && SPAN == Chars("span") && MENTION == Chars("mention")
  {
  }

  /** What `Flat` and `Blocks` gather: the texts of all leaves, and the outermost
      `code` and `pre` elements. */
  lemma {:induction false} GatheringLaws(v: Text, id: nat, tag: Text, className: Text, a: seq<Tree>, b: seq<Tree>)
    ensures Flat(TText(v)) == v && Flat(TOther(id)) == [] && Flat(TElem(tag, className, a)) == FlatKids(a)
    ensures FlatKids([]) == [] && FlatKids([TElem(tag, className, a)] + b) == FlatKids(a) + FlatKids(b)
    ensures FlatKids(a + b) == FlatKids(a) + FlatKids(b) && Blocks(a + b) == Blocks(a) + Blocks(b)
    ensures Blocks([]) == Blocks([TText(v)]) == Blocks([TOther(id)]) == []
    ensures var e := TElem(tag, className, a);
      Blocks([e]) == if tag == Chars("code") || tag == Chars("pre") then [e] else Blocks(a)
  {
    var e := TElem(tag, className, a);
    Literals();
    FlatCons(e, b);
    Single(e);
    Single(TText(v));
    Single(TOther(id));
    FlatKidsAppend(a, b);
    BlocksAppend(a, b);
  }

  lemma {:induction false} SomeIsAny(mode: Mode, kids: seq<Tree>)
    requires GoodMode(mode)
    ensures SomeSplit(mode, kids) <==> AnySplits(mode, kids)
  {
    if kids != [] {
      SomeIsAny(mode, kids[1..]);
      if AnySplits(mode, kids) {
        var k :| 0 <= k < |kids| && kids[k].TText? && |Split(kids[k].value, SpansFor(mode, kids[k].value))| > 1;
        assert k > 0 ==> kids[1..][k - 1] == kids[k];
      }
      if AnySplits(mode, kids[1..]) {
        var k :| 0 <= k < |kids[1..]| && kids[1..][k].TText?
                 && |Split(kids[1..][k].value, SpansFor(mode, kids[1..][k].value))| > 1;
        assert kids[k + 1] == kids[1..][k];
      }
    }
  }

  lemma {:induction false} PartTreesAre(parts: seq<Part>)
    ensures |PartTrees(parts)| == |parts| && forall k :: 0 <= k < |parts| ==> IsPart(PartTrees(parts)[k], parts[k])
  {
    Literals();
    if parts != [] { PartTreesAre(parts[1..]); }
  }

  lemma {:induction false} RewriteKidsAppend(mode: Mode, a: seq<Tree>, b: seq<Tree>, wrap: bool)
    requires GoodMode(mode)
    ensures RewriteKids(mode, a + b, wrap) == RewriteKids(mode, a, wrap) + RewriteKids(mode, b, wrap)
  {
    if a == [] {
      NoKids(mode, wrap);
      assert a + b == b;
    } else {
      hide RewriteKids, RewriteKid;
      HeadTail(a);
      AppendCons(a, b);
      RewriteKidsCons(mode, a[0], a[1..] + b, wrap);
      RewriteKidsCons(mode, a[0], a[1..], wrap);
      RewriteKidsAppend(mode, a[1..], b, wrap);
      JoinAssoc(RewriteKid(mode, a[0], wrap), RewriteKids(mode, a[1..], wrap), RewriteKids(mode, b, wrap));
    }
  }

  lemma {:induction false} AppendCons<T>(a: seq<T>, b: seq<T>)
    requires a != []
    ensures [a[0]] + (a[1..] + b) == a + b
  {
  }

  lemma {:induction false} NoKids(mode: Mode, wrap: bool)
    requires GoodMode(mode)
    ensures RewriteKids(mode, [], wrap) == []
  {
  }

  lemma {:induction false} KidWidth(mode: Mode, kids: seq<Tree>, i: nat)
    requires GoodMode(mode) && i < |kids|
    ensures |RewriteKid(mode, kids[i], AnySplits(mode, kids))| == Width(mode, kids, i)
  {
    if kids[i].TText? { PartTreesAre(Split(kids[i].value, SpansFor(mode, kids[i].value))); }
  }

  lemma {:induction false} UpTo<T>(s: seq<T>, i: nat)
    requires i < |s|
    ensures s[..i + 1] == s[..i] + [s[i]]
  {
  }

  lemma {:induction false} OneKid(mode: Mode, kid: Tree, wrap: bool)
    requires GoodMode(mode)
    ensures RewriteKids(mode, [kid], wrap) == RewriteKid(mode, kid, wrap)
  {
    assert [kid] + [] == [kid];
    RewriteKidsCons(mode, kid, [], wrap);
    NoKids(mode, wrap);
  }

  lemma {:induction false} PrefixWidth(mode: Mode, kids: seq<Tree>, i: nat)
    requires GoodMode(mode) && i <= |kids|
    ensures |RewriteKids(mode, kids[..i], AnySplits(mode, kids))| == Shift(mode, kids, i)
  {
    if i > 0 {
      var wrap := AnySplits(mode, kids);
      PrefixWidth(mode, kids, i - 1);
      UpTo(kids, i - 1);
      RewriteKidsAppend(mode, kids[..i - 1], [kids[i - 1]], wrap);
      OneKid(mode, kids[i - 1], wrap);
      KidWidth(mode, kids, i - 1);
    }
  }

  lemma {:induction false} Middle<T>(all: seq<T>, before: seq<T>, own: seq<T>, after: seq<T>, k: nat)
    requires all == (before + own) + after && k < |own|
    ensures |before| + k < |all| && all[|before| + k] == own[k]
  {
  }

  /** A child's nodes stand where the widths before it put them. */
  lemma {:induction false} KidAt(mode: Mode, kids: seq<Tree>, i: nat, k: nat)
    requires GoodMode(mode) && i < |kids| && k < Width(mode, kids, i)
    ensures var all, own, x := RewriteKids(mode, kids, AnySplits(mode, kids)),
                               RewriteKid(mode, kids[i], AnySplits(mode, kids)), Shift(mode, kids, i) + k;
      k < |own| && x < |all| && all[x] == own[k]
  {
    hide RewriteKids, RewriteKid, AnySplits, Width, Shift, Split, SpansFor;
    var wrap := AnySplits(mode, kids);
    PrefixWidth(mode, kids, i);
    KidWidth(mode, kids, i);
    UpTo(kids, i);
    RewriteKidsAppend(mode, kids[..i], [kids[i]], wrap);
    OneKid(mode, kids[i], wrap);
    assert kids == kids[..i + 1] + kids[i + 1..];
    RewriteKidsAppend(mode, kids[..i + 1], kids[i + 1..], wrap);
    Middle(RewriteKids(mode, kids, wrap), RewriteKids(mode, kids[..i], wrap), RewriteKid(mode, kids[i], wrap),
           RewriteKids(mode, kids[i + 1..], wrap), k);
  }

  lemma {:induction false} AllWidth(mode: Mode, kids: seq<Tree>)
    requires GoodMode(mode)
    ensures |RewriteKids(mode, kids, AnySplits(mode, kids))| == Shift(mode, kids, |kids|)
  {
    assert kids[..|kids|] == kids;
    PrefixWidth(mode, kids, |kids|);
  }

  /** The children the node is one of. */
  function Siblings(t: Tree, p: Path): seq<Tree>
    requires p != [] && Reaches(t, p)
    decreases p
  {
    if |p| == 1 then t.kids else Siblings(t.kids[p[0]], p[1..])
  }

  /** A text outside `code` and `pre`, it or a sibling of it splitting. */
  ghost predicate IsReplaced(mode: Mode, t: Tree, p: Path)
    requires GoodMode(mode) && Reaches(t, p)
  {
    p != [] && NodeAt(t, p).TText? && !InCode(t, p) && AnySplits(mode, Siblings(t, p))
  }

  /** The path of the `k`-th node after it. */
  function Next(p: Path, k: nat): Path
    requires p != []
  {
    p[|p| - 1 := p[|p| - 1] + k]
  }

  /** Part `k` of a text that is replaced. */
  ghost predicate PartShows(mode: Mode, t: Tree, u: Tree, p: Path, k: nat)
    requires GoodMode(mode) && Reaches(t, p) && IsReplaced(mode, t, p)
  {
    var parts := Split(NodeAt(t, p).value, SpansFor(mode, NodeAt(t, p).value));
    k < |parts| ==> Moved(mode, t, p) != [] && Reaches(u, Next(Moved(mode, t, p), k))
                    && IsPart(NodeAt(u, Next(Moved(mode, t, p), k)), parts[k])
  }

  /** Every other node is found again: in `code` and `pre`, and at every leaf,
      as it was; elsewhere with its tag, its class and a child list as long as
      the children became. */
  ghost predicate NodeStays(mode: Mode, t: Tree, u: Tree, p: Path)
    requires GoodMode(mode) && Reaches(t, p)
  {
    var was, q := NodeAt(t, p), Moved(mode, t, p);
    Reaches(u, q)
    && if !was.TElem? || InCode(t, p) || (p != [] && IsCode(was)) then NodeAt(u, q) == was
       else (&& NodeAt(u, q).TElem? && NodeAt(u, q).tag == was.tag && NodeAt(u, q).className == was.className
             && |NodeAt(u, q).kids| == Shift(mode, was.kids, |was.kids|))
  }

  /** What becomes of each node of a document, by its path. */
  ghost predicate Follows(mode: Mode, t: Tree, u: Tree, p: Path)
    requires GoodMode(mode) && Reaches(t, p)
  {
    if IsReplaced(mode, t, p) then forall k: nat :: PartShows(mode, t, u, p, k) else NodeStays(mode, t, u, p)
  }

  lemma {:induction false} PathCons(t: Tree, p: Path)
    requires p != [] && t.TElem? && p[0] < |t.kids| && Reaches(t.kids[p[0]], p[1..])
    ensures Reaches(t, p) && NodeAt(t, p) == NodeAt(t.kids[p[0]], p[1..])
  {
  }

  lemma {:induction false} NodeBelow(t: Tree, x: nat, p: Path)
    requires t.TElem? && x < |t.kids| && Reaches(t.kids[x], p)
    ensures Reaches(t, [x] + p) && NodeAt(t, [x] + p) == NodeAt(t.kids[x], p)
  {
    assert ([x] + p)[1..] == p;
  }

  lemma {:induction false} RootStays(mode: Mode, t: Tree)
    requires GoodMode(mode)
    ensures Follows(mode, t, Rewrite(mode, t), [])
  {
    if t.TElem? {
      SomeIsAny(mode, t.kids);
      AllWidth(mode, t.kids);
    }
  }

  /** What a child that is no replaced text becomes. */
  lemma {:induction false} ChildStays(mode: Mode, t: Tree, i: nat)
    requires GoodMode(mode) && t.TElem? && i < |t.kids| && !(t.kids[i].TText? && AnySplits(mode, t.kids))
    ensures var u, x, kid := Rewrite(mode, t), Shift(mode, t.kids, i), t.kids[i];
      u.TElem? && x < |u.kids| && u.kids[x] == if kid.TElem? && !IsCode(kid) then Rewrite(mode, kid) else kid
  {
    hide RewriteKids, AnySplits, Shift, Split, SpansFor;
    SomeIsAny(mode, t.kids);
    Literals();
    KidAt(mode, t.kids, i, 0);
  }

  /** The parts a replaced text becomes. */
  lemma {:induction false} ChildSplits(mode: Mode, t: Tree, i: nat, k: nat)
    requires GoodMode(mode) && t.TElem? && i < |t.kids| && t.kids[i].TText? && AnySplits(mode, t.kids)
    requires k < |Split(t.kids[i].value, SpansFor(mode, t.kids[i].value))|
    ensures var u, x := Rewrite(mode, t), Shift(mode, t.kids, i) + k;
      && u.TElem? && x < |u.kids|
      && IsPart(u.kids[x], Split(t.kids[i].value, SpansFor(mode, t.kids[i].value))[k])
  {
    hide RewriteKids, AnySplits, Shift, Split, SpansFor, PartTrees, IsPart;
    SomeIsAny(mode, t.kids);
    PartTreesAre(Split(t.kids[i].value, SpansFor(mode, t.kids[i].value)));
    KidAt(mode, t.kids, i, k);
  }

  /** A leaf that is a child of the root. */
  lemma {:induction false} LeafFollows(mode: Mode, t: Tree, i: nat)
    requires GoodMode(mode) && t.TElem? && i < |t.kids| && !t.kids[i].TElem?
    ensures Reaches(t, [i]) && Follows(mode, t, Rewrite(mode, t), [i])
  {
    hide Rewrite, AnySplits, Shift, Split, SpansFor, IsPart;
    var u, x := Rewrite(mode, t), Shift(mode, t.kids, i);
    assert [i][1..] == [];
    assert NodeAt(t, [i]) == t.kids[i] && Moved(mode, t, [i]) == [x] by { MovedChild(mode, t, i); }
    if IsReplaced(mode, t, [i]) {
      forall k: nat
        ensures PartShows(mode, t, u, [i], k)
      {
        if k < |Split(t.kids[i].value, SpansFor(mode, t.kids[i].value))| {
          ChildSplits(mode, t, i, k);
          assert Next([x], k) == [x + k];
          NodeBelow(u, x + k, []);
        }
      }
    } else {
      ChildStays(mode, t, i);
      NodeBelow(u, x, []);
    }
  }

  lemma {:induction false} MovedChild(mode: Mode, t: Tree, i: nat)
    requires GoodMode(mode) && t.TElem? && i < |t.kids|
    ensures Reaches(t, [i]) && Moved(mode, t, [i]) == [Shift(mode, t.kids, i)]
  {
  }

  /** A `code` or `pre` child stays as it is, with all below it. */
  lemma {:induction false} CodeFollows(mode: Mode, t: Tree, p: Path)
    requires GoodMode(mode) && p != [] && Reaches(t, p) && IsCode(t.kids[p[0]])
    ensures Follows(mode, t, Rewrite(mode, t), p)
  {
    hide Rewrite, AnySplits, Shift, Split, SpansFor;
    ChildStays(mode, t, p[0]);
    PathCons(t, p);
    if |p| == 1 { assert NodeAt(t, p) == t.kids[p[0]]; }
    NodeBelow(Rewrite(mode, t), Shift(mode, t.kids, p[0]), p[1..]);
  }

  lemma {:induction false} ReplacedBelow(mode: Mode, t: Tree, p: Path)
    requires GoodMode(mode) && p != [] && Reaches(t, p) && t.kids[p[0]].TElem? && !IsCode(t.kids[p[0]])
    ensures IsReplaced(mode, t, p) <==> IsReplaced(mode, t.kids[p[0]], p[1..])
  {
    hide AnySplits;
    PathCons(t, p);
  }

  lemma {:induction false} MovedBelow(mode: Mode, t: Tree, p: Path)
    requires GoodMode(mode) && p != [] && Reaches(t, p) && !IsCode(t.kids[p[0]])
    ensures Moved(mode, t, p) == [Shift(mode, t.kids, p[0])] + Moved(mode, t.kids[p[0]], p[1..])
  {
  }

  lemma {:induction false} PartBelow(mode: Mode, t: Tree, u: Tree, p: Path, k: nat)
    requires GoodMode(mode) && p != [] && Reaches(t, p) && t.kids[p[0]].TElem? && !IsCode(t.kids[p[0]])
    requires var x := Shift(mode, t.kids, p[0]);
      u.TElem? && x < |u.kids| && IsReplaced(mode, t.kids[p[0]], p[1..])
      && PartShows(mode, t.kids[p[0]], u.kids[x], p[1..], k)
    ensures IsReplaced(mode, t, p) && PartShows(mode, t, u, p, k)
  {
    hide AnySplits, Shift, Split, SpansFor, IsPart, Moved, IsReplaced;
    var x, q := Shift(mode, t.kids, p[0]), Moved(mode, t.kids[p[0]], p[1..]);
    PathCons(t, p);
    ReplacedBelow(mode, t, p);
    MovedBelow(mode, t, p);
    if q != [] && Reaches(u.kids[x], Next(q, k)) {
      assert Next([x] + q, k) == [x] + Next(q, k);
      NodeBelow(u, x, Next(q, k));
    }
  }

  /** What follows in a child follows in the whole. */
  lemma {:induction false} FollowsBelow(mode: Mode, t: Tree, u: Tree, p: Path)
    requires GoodMode(mode) && p != [] && Reaches(t, p) && t.kids[p[0]].TElem? && !IsCode(t.kids[p[0]])
    requires var x := Shift(mode, t.kids, p[0]);
      u.TElem? && x < |u.kids| && Follows(mode, t.kids[p[0]], u.kids[x], p[1..])
    ensures Follows(mode, t, u, p)
  {
    hide AnySplits, Split, SpansFor, Moved, IsReplaced, PartShows;
    var x, kid := Shift(mode, t.kids, p[0]), t.kids[p[0]];
    PathCons(t, p);
    ReplacedBelow(mode, t, p);
    if IsReplaced(mode, t, p) {
      forall k: nat
        ensures PartShows(mode, t, u, p, k)
      {
        PartBelow(mode, t, u, p, k);
      }
    } else {
      MovedBelow(mode, t, p);
      NodeBelow(u, x, Moved(mode, kid, p[1..]));
      if |p| == 1 { assert p[1..] == []; }
    }
  }

  /** Every node of the document follows the rewrite: a text under `code` or
      `pre` is unchanged and in its place, and any other one with a splitting
      text beside it, or splitting itself, is replaced by its parts. */
  lemma {:induction false} EveryNodeFollows(mode: Mode, t: Tree, p: Path)
    requires GoodMode(mode) && Reaches(t, p)
    ensures Follows(mode, t, Rewrite(mode, t), p)
    decreases p
  {
    hide Rewrite, Follows, Shift, AnySplits, Split, SpansFor;
    if p == [] {
      RootStays(mode, t);
    } else if !t.kids[p[0]].TElem? {
      LeafFollows(mode, t, p[0]);
      assert p == [p[0]];
    } else if IsCode(t.kids[p[0]]) {
      CodeFollows(mode, t, p);
    } else {
      ChildStays(mode, t, p[0]);
      EveryNodeFollows(mode, t.kids[p[0]], p[1..]);
      FollowsBelow(mode, t, Rewrite(mode, t), p);
    }
  }
}
