/**
 * The markup vocabulary shared by both renderers: JavaScript's view of an
 * optional data field (truthiness, template-literal interpolation), the parsed
 * element tree that a template literal denotes, and the two DOM operations the
 * renderers use on it — `querySelector` (Find) and
 * `insertAdjacentHTML('beforeend', ...)` on a queried element (InsertFirst).
 */
module Html {

  datatype Option<+T> = None | Some(value: T)

  /** A field read from the data document: truthy when present and not "". */
  predicate Truthy(field: Option<string>) {
    field.Some? && field.value != ""
  }

  /** `${field}` in a template literal: a missing field prints as "undefined". */
  function Interp(field: Option<string>): string {
    match field
    case Some(v) => v
    case None => "undefined"
  }

  /** The guard `list && list.length > 0`. */
  predicate NonEmpty<T>(list: Option<seq<T>>) {
    list.Some? && |list.value| > 0
  }

  /** The guard `!list || list.length === 0` of the early returns. */
  predicate AbsentOrEmpty<T>(list: Option<seq<T>>) {
    list.None? || |list.value| == 0
  }

  /** The elements of an optional list; a missing list has none. */
  function Listed<T>(list: Option<seq<T>>): seq<T> {
    if list.Some? then list.value else []
  }

  predicate StartsWith(s: string, prefix: string) {
    |prefix| <= |s| && s[..|prefix|] == prefix
  }

  predicate EndsWith(s: string, suffix: string) {
    |suffix| <= |s| && s[|s| - |suffix|..] == suffix
  }

  datatype Attr = Attr(name: string, value: string)

  /**
   * A parsed markup fragment. The `class` attribute is kept apart as its list
   * of class tokens; whitespace between tags is not represented.
   */
  datatype Node =
    | Text(text: string)
    | Element(tag: string, classes: seq<string>, attrs: seq<Attr>, children: seq<Node>)

  /** The value of the first attribute called `name`, if any. */
  function AttrOf(attrs: seq<Attr>, name: string): (v: Option<string>)
    ensures v.Some? ==> exists i :: 0 <= i < |attrs| && attrs[i] == Attr(name, v.value)
    ensures v.None? ==> forall i :: 0 <= i < |attrs| ==> attrs[i].name != name
  {
    if attrs == [] then None
    else if attrs[0].name == name then Some(attrs[0].value)
    else AttrOf(attrs[1..], name)
  }

  /** The CSS selectors the source hands to `querySelector`: `.cls`, `tag`, `#id`. */
  datatype Selector = ByClass(cls: string) | ByTag(tag: string) | ById(id: string)

  predicate Matches(n: Node, sel: Selector) {
    n.Element? &&
    match sel
    case ByClass(c) => c in n.classes
    case ByTag(t) => n.tag == t
    case ById(i) => AttrOf(n.attrs, "id") == Some(i)
  }

  /** Every element of the forest matching `sel`, in document (pre-)order. */
  function Find(ns: seq<Node>, sel: Selector): seq<Node>
    decreases ns
  {
    if ns == [] then [] else FindIn(ns[0], sel) + Find(ns[1..], sel)
  }

  function FindIn(n: Node, sel: Selector): seq<Node>
    decreases n
  {
    match n
    case Text(_) => []
    case Element(_, _, _, children) => (if Matches(n, sel) then [n] else []) + Find(children, sel)
  }

  /** A single element: itself when it matches, then the matches among its descendants. */
  lemma FindElement(n: Node, sel: Selector)
    requires n.Element?
    ensures Find([n], sel) == (if Matches(n, sel) then [n] else []) + Find(n.children, sel)
    ensures !Matches(n, sel) ==> Find([n], sel) == Find(n.children, sel)
  {
    assert [n][1..] == [];
    EmptyAppend(Find(n.children, sel));
  }

  /** Appending to or after the empty sequence changes nothing. */
  lemma EmptyAppend<T>(s: seq<T>)
    ensures [] + s == s && s + [] == s
  {
  }

  /** An element holding a single text node: a block of every selector it matches. */
  lemma FindLeaf(n: Node, sel: Selector)
    requires n.Element? && |n.children| == 1 && n.children[0].Text?
    ensures Find([n], sel) == if Matches(n, sel) then [n] else []
    ensures Find(n.children, sel) == []
    ensures TextOf([n]) == n.children[0].text
  {
    FindElement(n, sel);
    assert n.children[1..] == [] && [n][1..] == [];
  }

  /** An element holding a single text node shows that text, once. */
  lemma LeafText(n: Node)
    requires n.Element? && |n.children| == 1 && n.children[0].Text?
    ensures OnePerText([n], [n.children[0].text])
  {
    assert [n][1..] == [] && n.children[1..] == [];
  }

  /** A forest of two trees. */
  lemma FindPair(a: Node, b: Node, sel: Selector)
    ensures Find([a, b], sel) == Find([a], sel) + Find([b], sel)
  {
    assert [a, b] == [a] + [b];
    FindAppend([a], [b], sel);
  }

  /** A forest of three trees. */
  lemma FindTriple(a: Node, b: Node, c: Node, sel: Selector)
    ensures Find([a, b, c], sel) == Find([a], sel) + Find([b], sel) + Find([c], sel)
  {
    assert [a, b, c] == [a] + [b] + [c];
    FindAppend([a] + [b], [c], sel);
    FindAppend([a], [b], sel);
  }

  /** Two trees followed by a forest. */
  lemma FindPairThen(a: Node, b: Node, rest: seq<Node>, sel: Selector)
    ensures Find([a, b] + rest, sel) == Find([a], sel) + Find([b], sel) + Find(rest, sel)
  {
    FindPair(a, b, sel);
    FindAppend([a, b], rest, sel);
  }

  /** An element that does not match, with two trees and then a forest as children. */
  lemma FindFrame(n: Node, a: Node, b: Node, rest: seq<Node>, sel: Selector)
    requires n.Element? && n.children == [a, b] + rest && !Matches(n, sel)
    ensures Find([n], sel) == Find([a], sel) + Find([b], sel) + Find(rest, sel)
  {
    FindElement(n, sel);
    FindPairThen(a, b, rest, sel);
  }

  /** A forest in three consecutive parts. */
  lemma FindThree(a: seq<Node>, b: seq<Node>, c: seq<Node>, sel: Selector)
    ensures Find(a + b + c, sel) == Find(a, sel) + Find(b, sel) + Find(c, sel)
  {
    FindAppend(a + b, c, sel);
    FindAppend(a, b, sel);
  }

  /** An element whose children come in four consecutive parts. */
  lemma FindElementParts(n: Node, a: seq<Node>, b: seq<Node>, c: seq<Node>, d: seq<Node>, sel: Selector)
    requires n.Element? && n.children == a + b + c + d
    ensures Find([n], sel) == (if Matches(n, sel) then [n] else []) + (Find(a, sel) + Find(b, sel) + Find(c, sel) + Find(d, sel))
  {
    FindElement(n, sel);
    FindAppend(a + b + c, d, sel);
    FindAppend(a + b, c, sel);
    FindAppend(a, b, sel);
  }

  /** The ids of the top-level elements of a forest, in order. */
  function TopIds(ns: seq<Node>): seq<string> {
    if ns == [] then [] else IdOf(ns[0]) + TopIds(ns[1..])
  }

  /** The `id` of a single node, if it has one. */
  function IdOf(n: Node): seq<string> {
    match n
    case Element(_, _, attrs, _) => (match AttrOf(attrs, "id") case Some(i) => [i] case None => [])
    case Text(_) => []
  }

  /** The text content of a forest: its text nodes, in document order. */
  function TextOf(ns: seq<Node>): string
    decreases ns
  {
    if ns == [] then []
    else (match ns[0] case Text(t) => t case Element(_, _, _, ch) => TextOf(ch)) + TextOf(ns[1..])
  }

  /** The text of a single element is the text of its children. */
  lemma TextOfElement(n: Node)
    requires n.Element?
    ensures TextOf([n]) == TextOf(n.children)
  {
    assert [n][1..] == [];
  }

  /** The text of a forest of two trees. */
  lemma TextOfPair(a: Node, b: Node)
    ensures TextOf([a, b]) == TextOf([a]) + TextOf([b])
  {
    assert [a, b][1..] == [b] && [a][1..] == [] && [b][1..] == [];
  }

  /** `found` holds one element per text, in order, each carrying that text. */
  predicate OnePerText(found: seq<Node>, texts: seq<string>) {
    |found| == |texts| && forall i :: 0 <= i < |found| ==> TextOf([found[i]]) == texts[i]
  }

  /** An element of the forest together with its subtree; used to state "is one block of `sel`". */
  predicate IsBlock(n: Node, sel: Selector) {
    Matches(n, sel) && Find(n.children, sel) == []
  }

  /** `xs.map(f).join('')`, one node per element. */
  function MapNodes<T>(xs: seq<T>, f: T -> Node): (r: seq<Node>)
    ensures |r| == |xs|
    ensures forall i :: 0 <= i < |xs| ==> r[i] == f(xs[i])
  {
    if xs == [] then [] else [f(xs[0])] + MapNodes(xs[1..], f)
  }

  /** The fragments `f` renders for the elements of `xs`, one after the other. */
  function FlatMap<T>(xs: seq<T>, f: T -> seq<Node>): seq<Node> {
    if xs == [] then [] else f(xs[0]) + FlatMap(xs[1..], f)
  }

  /**
   * `document.querySelector(sel).insertAdjacentHTML('beforeend', frag)`:
   * appends `frag` to the children of the first element matching `sel`;
   * None when no element matches (the source then skips the insertion).
   */
  function InsertFirst(ns: seq<Node>, sel: Selector, frag: seq<Node>): Option<seq<Node>>
    decreases ns
  {
    if ns == [] then None
    else match ns[0]
      case Text(_) =>
        (match InsertFirst(ns[1..], sel, frag)
         case Some(rest) => Some([ns[0]] + rest)
         case None => None)
      case Element(t, cs, ats, ch) =>
        if Matches(ns[0], sel) then Some([Element(t, cs, ats, ch + frag)] + ns[1..])
        else match InsertFirst(ch, sel, frag)
          case Some(ch') => Some([Element(t, cs, ats, ch')] + ns[1..])
          case None =>
            (match InsertFirst(ns[1..], sel, frag)
             case Some(rest) => Some([ns[0]] + rest)
             case None => None)
  }

  // ---------------------------------------------------------------------------
  // Properties of the queries

  /** Regrouping a five-part concatenation to the left. */
  lemma RegroupLeft<T>(a: seq<T>, b: seq<T>, c: seq<T>, d: seq<T>, e: seq<T>)
    ensures a + (b + c + d + e) == a + b + c + d + e
  {
  }

  lemma MapNodesAppend<T>(a: seq<T>, b: seq<T>, f: T -> Node)
    ensures MapNodes(a + b, f) == MapNodes(a, f) + MapNodes(b, f)
  {
  }

  lemma {:induction false} FlatMapAppend<T>(a: seq<T>, b: seq<T>, f: T -> seq<Node>)
    ensures FlatMap(a + b, f) == FlatMap(a, f) + FlatMap(b, f)
  {
    if a == [] {
      assert a + b == b;
    } else {
      assert (a + b)[1..] == a[1..] + b;
      FlatMapAppend(a[1..], b, f);
    }
  }

  lemma FlatMapOne<T>(x: T, f: T -> seq<Node>)
    ensures FlatMap([x], f) == f(x)
  {
    assert [x][1..] == [];
  }

  lemma {:induction false} FindAppend(a: seq<Node>, b: seq<Node>, sel: Selector)
    ensures Find(a + b, sel) == Find(a, sel) + Find(b, sel)
  {
    if a == [] {
      assert a + b == b;
    } else {
      assert (a + b)[0] == a[0];
      assert (a + b)[1..] == a[1..] + b;
      FindAppend(a[1..], b, sel);
    }
  }

  lemma {:induction false} TopIdsAppend(a: seq<Node>, b: seq<Node>)
    ensures TopIds(a + b) == TopIds(a) + TopIds(b)
  {
    if a == [] {
      assert a + b == b;
    } else {
      assert (a + b)[0] == a[0];
      assert (a + b)[1..] == a[1..] + b;
      TopIdsAppend(a[1..], b);
    }
  }

  /** One block per element, in order: mapping `f` over `xs` yields exactly the blocks. */
  lemma {:induction false} FindMapBlocks<T>(xs: seq<T>, f: T -> Node, sel: Selector)
    requires forall i :: 0 <= i < |xs| ==> IsBlock(f(xs[i]), sel)
    ensures Find(MapNodes(xs, f), sel) == MapNodes(xs, f)
  {
    if xs != [] {
      var r := MapNodes(xs, f);
      assert r == [f(xs[0])] + MapNodes(xs[1..], f);
      FindAppend([f(xs[0])], MapNodes(xs[1..], f), sel);
      assert Find([f(xs[0])], sel) == [f(xs[0])] by {
        assert [f(xs[0])][1..] == [];
      }
      FindMapBlocks(xs[1..], f, sel);
    }
  }

  /** Mapping `f` over `xs` contributes no match when no single image does. */
  lemma {:induction false} FindMapNone<T>(xs: seq<T>, f: T -> Node, sel: Selector)
    requires forall i :: 0 <= i < |xs| ==> FindIn(f(xs[i]), sel) == []
    ensures Find(MapNodes(xs, f), sel) == []
  {
    if xs != [] {
      assert MapNodes(xs, f) == [f(xs[0])] + MapNodes(xs[1..], f);
      FindMapNone(xs[1..], f, sel);
    }
  }

  /**
   * `texts.map(t => <tag class=...>${t}</tag>).join('')`: when every image is
   * an element holding just its text and matching `sel`, the matches are the
   * images, one per text, in order.
   */
  lemma LeafList(texts: seq<string>, f: string -> Node, sel: Selector)
    requires forall t :: f(t).Element? && f(t).children == [Text(t)] && Matches(f(t), sel)
    ensures OnePerText(Find(MapNodes(texts, f), sel), texts)
  {
    forall i | 0 <= i < |texts|
      ensures IsBlock(f(texts[i]), sel)
      ensures TextOf([f(texts[i])]) == texts[i]
    {
      FindLeaf(f(texts[i]), sel);
    }
    FindMapBlocks(texts, f, sel);
  }

  /** The insertion fails exactly when nothing matches the selector. */
  lemma {:induction false} InsertFirstFails(ns: seq<Node>, sel: Selector, frag: seq<Node>)
    ensures InsertFirst(ns, sel, frag).None? <==> Find(ns, sel) == []
    decreases ns
  {
    if ns != [] {
      InsertFirstFails(ns[1..], sel, frag);
      match ns[0]
      case Text(_) =>
      case Element(t, cs, ats, ch) =>
        InsertFirstFails(ch, sel, frag);
    }
  }

  /** An element with no match in its subtree is passed over unchanged. */
  lemma PassOver(n: Node, rest: seq<Node>, sel: Selector, frag: seq<Node>)
    requires FindIn(n, sel) == []
    ensures InsertFirst(rest, sel, frag).None? ==> InsertFirst([n] + rest, sel, frag).None?
    ensures InsertFirst(rest, sel, frag).Some? ==> InsertFirst([n] + rest, sel, frag) == Some([n] + InsertFirst(rest, sel, frag).value)
  {
    var ns := [n] + rest;
    assert ns[0] == n && ns[1..] == rest;
    if n.Element? {
      InsertFirstFails(n.children, sel, frag);
    }
  }

  /** A first tree that matches receives the insertion itself. */
  lemma InsertFirstHere(n: Node, rest: seq<Node>, sel: Selector, frag: seq<Node>)
    requires Matches(n, sel)
    ensures InsertFirst([n] + rest, sel, frag) == Some([AppendChildren(n, frag)] + rest)
  {
    var ns := [n] + rest;
    assert ns[0] == n && ns[1..] == rest;
  }

  /** A prefix without a match is passed over unchanged. */
  lemma InsertFirstSkips(a: seq<Node>, b: seq<Node>, sel: Selector, frag: seq<Node>)
    requires Find(a, sel) == []
    ensures InsertFirst(b, sel, frag).None? ==> InsertFirst(a + b, sel, frag).None?
    ensures InsertFirst(b, sel, frag).Some? ==> InsertFirst(a + b, sel, frag) == Some(a + InsertFirst(b, sel, frag).value)
  {
    if InsertFirst(b, sel, frag).None? {
      SkipsToNone(a, b, sel, frag);
    } else {
      SkipsToSome(a, b, sel, frag);
    }
  }

  /** The first match of `a` and the rest of `a`, when `a` is not empty. */
  lemma FindHead(a: seq<Node>, sel: Selector)
    requires a != [] && Find(a, sel) == []
    ensures FindIn(a[0], sel) == [] && Find(a[1..], sel) == []
  {
    assert Find(a, sel) == FindIn(a[0], sel) + Find(a[1..], sel);
  }

  lemma {:induction false} SkipsToNone(a: seq<Node>, b: seq<Node>, sel: Selector, frag: seq<Node>)
    requires Find(a, sel) == [] && InsertFirst(b, sel, frag).None?
    ensures InsertFirst(a + b, sel, frag).None?
  {
    if a == [] {
      assert a + b == b;
    } else {
      var rest := a[1..] + b;
      FindHead(a, sel);
      assert a + b == [a[0]] + rest;
      SkipsToNone(a[1..], b, sel, frag);
      PassOver(a[0], rest, sel, frag);
    }
  }

  lemma {:induction false} SkipsToSome(a: seq<Node>, b: seq<Node>, sel: Selector, frag: seq<Node>)
    requires Find(a, sel) == [] && InsertFirst(b, sel, frag).Some?
    ensures InsertFirst(a + b, sel, frag) == Some(a + InsertFirst(b, sel, frag).value)
  {
    var r := InsertFirst(b, sel, frag).value;
    if a == [] {
      assert a + b == b && a + r == r;
    } else {
      var rest := a[1..] + b;
      FindHead(a, sel);
      assert InsertFirst(rest, sel, frag) == Some(a[1..] + r) by {
        SkipsToSome(a[1..], b, sel, frag);
      }
      assert InsertFirst([a[0]] + rest, sel, frag) == Some([a[0]] + (a[1..] + r)) by {
        PassOver(a[0], rest, sel, frag);
      }
      assert a + b == [a[0]] + rest;
      assert [a[0]] + (a[1..] + r) == a + r;
    }
  }

  /** `n` with `frag` appended to its children (text nodes have none). */
  function AppendChildren(n: Node, frag: seq<Node>): Node {
    match n
    case Text(_) => n
    case Element(t, cs, ats, ch) => Element(t, cs, ats, ch + frag)
  }
}
