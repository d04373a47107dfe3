/** The element stack during parsing, and what an accepted document looks like. */
module Nesting {
  import opened Options
  import opened Bytes
  import opened Names
  import opened Escape
  import opened XmlTree
  import opened Parser
  import opened ParserStates

  /** The names of the elements that a sequence of tags leaves open, outermost first; none if an end
      tag does not match the innermost open element. */
  function Pending(tags: seq<Tag>): Option<seq<CString>> {
    if tags == [] then Some([])
    else
      var p := Pending(DropLast(tags));
      if p.None? then None
      else
        match Last(tags)
        case Open(name) => Some(p.value + [name])
        case Close(name) => if p.value != [] && Last(p.value) == name then Some(DropLast(p.value)) else None
  }

  /** Every start tag has its end tag, properly nested. */
  predicate IsBalanced(tags: seq<Tag>) {
    Pending(tags) == Some([])
  }

  predicate DistinctNames(attrs: seq<Attr>) {
    forall i, j :: 0 <= i < j < |attrs| ==> attrs[i].name != attrs[j].name
  }

  predicate HasDistinctAttrs(nodes: seq<Node>)
    decreases nodes
  {
    forall i :: 0 <= i < |nodes| ==>
      nodes[i].Element? ==> DistinctNames(nodes[i].attrs) && HasDistinctAttrs(nodes[i].children)
  }

  /** The tags of the elements that are still open, with the finished parts of their content. */
  function WalkOpen(open: seq<Frame>): seq<Tag> {
    if open == [] then []
    else WalkOpen(DropLast(open)) + [Tag.Open(Last(open).name)] + Walk(Last(open).children)
  }

  function PathNames(open: seq<Frame>): seq<CString>
  {
    seq(|open|, i requires 0 <= i < |open| => open[i].name)
  }

  /** What holds at the top of the loop of `Parser_parseDocument`. The element stack spells the names on
      the path from the document to `currentNodePtr`; the open and close tags of the tree built so far
      are the tags that were read; there is at most one root. */
  ghost predicate Inv(d: State) {
    && d.stack == PathNames(d.open)
    && Pending(d.tags) == Some(d.stack)
    && d.tags == Walk(d.roots) + WalkOpen(d.open)
    && |d.roots| <= 1 && (d.open != [] ==> d.roots == [])
    && (d.hasTop <==> d.roots != [] || d.open != [])
    && (forall n <- d.roots :: n.Element?)
    && HasDistinctAttrs(d.roots)
    && (forall i :: 0 <= i < |d.open| ==> DistinctNames(d.open[i].attrs) && HasDistinctAttrs(d.open[i].children))
  }

  lemma {:induction false} WalkConcat(a: seq<Node>, b: seq<Node>)
    ensures Walk(a + b) == Walk(a) + Walk(b)
    decreases |a|
  {
    if a == [] {
      assert a + b == b;
    } else {
      assert (a + b)[0] == a[0] && (a + b)[1..] == a[1..] + b;
      WalkConcat(a[1..], b);
    }
  }

  lemma DistinctConcat(a: seq<Node>, n: Node)
    requires HasDistinctAttrs(a)
    requires n.Element? ==> DistinctNames(n.attrs) && HasDistinctAttrs(n.children)
    ensures HasDistinctAttrs(a + [n])
  {
  }

  lemma AppendLeafKeeps(d: State, n: Node)
    requires Inv(d) && !n.Element? && AppendChild(d, n).Some?
    ensures Inv(AppendChild(d, n).value)
  {
    hide HasDistinctAttrs, Pending;
    var f := Last(d.open);
    var d' := AppendChild(d, n).value;
    WalkConcat(f.children, [n]);
    assert [n][0] == n && [n][1..] == [];
    assert Walk([n]) == [];
    assert Walk(f.children + [n]) == Walk(f.children);
    assert DropLast(d'.open) == DropLast(d.open);
    DistinctConcat(f.children, n);
    assert PathNames(d'.open) == PathNames(d.open);
  }

  lemma WalkNothing()
    ensures Walk([]) == [] && HasDistinctAttrs([])
  {
  }

  lemma WalkElement(n: Node)
    requires n.Element?
    ensures Walk([n]) == [Tag.Open(n.name)] + Walk(n.children) + [Close(n.name)]
  {
    assert [n][0] == n && [n][1..] == [];
  }

  lemma WalkOpenSnoc(open: seq<Frame>, f: Frame)
    ensures WalkOpen(open + [f]) == WalkOpen(open) + [Tag.Open(f.name)] + Walk(f.children)
  {
    assert DropLast(open + [f]) == open;
  }

  lemma PendingSnoc(tags: seq<Tag>, tag: Tag)
    ensures var p, q := Pending(tags), Pending(tags + [tag]);
      if p.None? then q == None
      else if tag.Open? then q == Some(p.value + [tag.name])
      else if p.value != [] && Last(p.value) == tag.name then q == Some(DropLast(p.value))
      else q == None
  {
    assert DropLast(tags + [tag]) == tags;
  }

  lemma OpenKeeps(d: State, name: CString)
    requires Inv(d) && OpenElement(d, name).Some?
    ensures Inv(OpenElement(d, name).value)
  {
    hide Walk, WalkOpen, Pending, HasDistinctAttrs;
    var d' := OpenElement(d, name).value;
    var f := Frame(name, [], []);
    assert PathNames(d'.open) == PathNames(d.open) + [name];
    WalkNothing();
    WalkOpenSnoc(d.open, f);
    PendingSnoc(d.tags, Tag.Open(name));
    assert d'.tags == Walk(d.roots) + WalkOpen(d'.open);
    if d.hasTop {
      assert d.open != [];
    }
  }

  lemma AttributeKeeps(d: State, name: CString, value: CString)
    requires Inv(d) && AddAttribute(d, name, value).Some?
    ensures Inv(AddAttribute(d, name, value).value)
  {
    hide HasDistinctAttrs, Pending, Walk;
    var d' := AddAttribute(d, name, value).value;
    assert DropLast(d'.open) == DropLast(d.open);
    assert PathNames(d'.open) == PathNames(d.open);
  }

  /** The check against the element stack and the check against `currentNodePtr` never disagree. */
  lemma EndTagChecksAgree(d: State, name: CString)
    requires Inv(d)
    ensures CloseElement(d, name).Some? <==> d.stack != [] && Last(d.stack) == name
  {
    if d.stack != [] {
      assert Last(d.stack) == Last(d.open).name;
    }
  }

  /** Moving a finished element into its parent does not change the tags of the tree. */
  lemma WalkClosed(outer: seq<Frame>, f: Frame)
    requires outer != []
    ensures var n, g := Element(f.name, f.attrs, f.children), Last(outer);
      WalkOpen(DropLast(outer) + [g.(children := g.children + [n])]) == WalkOpen(outer + [f]) + [Close(f.name)]
  {
    hide Walk, WalkOpen;
    var n, g := Element(f.name, f.attrs, f.children), Last(outer);
    var g' := g.(children := g.children + [n]);
    WalkConcat(g.children, [n]);
    WalkElement(n);
    var up := DropLast(outer);
    assert outer == up + [g];
    WalkOpenSnoc(outer, f);
    WalkOpenSnoc(up, g);
    WalkOpenSnoc(up, g');
    var x, y, z := WalkOpen(up), [Tag.Open(g.name)], Walk(g.children);
    assert x + y + (z + Walk([n])) == x + y + z + Walk([n]);
    assert WalkOpen(outer) + [Tag.Open(f.name)] + Walk(f.children) + [Close(f.name)] == WalkOpen(outer) + Walk([n]);
  }

  lemma CloseKeeps(d: State, name: CString)
    requires Inv(d) && CloseElement(d, name).Some?
    ensures Inv(CloseElement(d, name).value)
  {
    hide HasDistinctAttrs, Walk, WalkOpen, Pending;
    var f, outer := Last(d.open), DropLast(d.open);
    var n := Element(f.name, f.attrs, f.children);
    assert d.open == outer + [f];
    assert DropLast(d.stack) == PathNames(outer);
    var tags := d.tags + [Close(name)];
    PendingSnoc(d.tags, Close(name));
    var d' := CloseElement(d, name).value;
    WalkNothing();
    assert [] + WalkOpen(d.open) == WalkOpen(d.open) == d.tags;
    if outer == [] {
      assert [] + [n] == [n];
      DistinctConcat([], n);
      WalkElement(n);
      WalkRoot(f);
      assert d.open == [f] && Walk([n]) + [] == Walk([n]);
      assert WalkOpen(d'.open) == [] by { WalkOpenNothing(); }
    } else {
      var g := Last(outer);
      DistinctConcat(g.children, n);
      WalkClosed(outer, f);
      assert PathNames(d'.open) == PathNames(outer);
      assert tags == [] + WalkOpen(d'.open);
    }
  }

  lemma WalkOpenNothing()
    ensures WalkOpen([]) == []
  {
  }

  lemma WalkRoot(f: Frame)
    ensures WalkOpen([f]) + [Close(f.name)] == Walk([Element(f.name, f.attrs, f.children)])
  {
    hide Walk;
    WalkElement(Element(f.name, f.attrs, f.children));
    assert DropLast([f]) == [];
    assert [] + [Tag.Open(f.name)] + Walk(f.children) == [Tag.Open(f.name)] + Walk(f.children);
  }

  /** Every pass of the loop keeps the invariant. */
  lemma StepKeeps(t: Tables, d: State)
    requires Inv(d) && Step(t, d).Some?
    ensures Inv(Step(t, d).value)
  {
    hide GetNextNode;
    var n := GetNextNode(t, d.cursor, d.stack == []);
    var d1 := d.(cursor := n.cursor);
    assert Inv(d1);
    match n.event
    case Nothing =>
    case StartTag(name) => OpenKeeps(d1, name);
    case EndTag(name) => CloseKeeps(d1, name);
    case AttributeNode(name, value) => AttributeKeeps(d1, name, value);
    case TextNode(text) => AppendLeafKeeps(d1, Text(text));
    case CDataNode(text) => AppendLeafKeeps(d1, CData(text));
  }

  /** The state after `k` passes of the loop, if it gets that far. */
  function Passes(t: Tables, d: State, k: nat): Option<State>
    decreases k
  {
    if k == 0 then Some(d)
    else
      var p := Passes(t, d, k - 1);
      if p.None? then None else Step(t, p.value)
  }

  lemma InitialInv(s: CString)
    ensures Inv(InitialState(s))
  {
    assert PathNames([]) == [];
  }

  /** At every step of the parse loop, on every input, the element stack spells the path to
      `currentNodePtr` and the tree built so far has the tags read so far. */
  lemma {:induction false} EveryStep(t: Tables, s: CString, k: nat)
    requires Passes(t, InitialState(s), k).Some?
    ensures Inv(Passes(t, InitialState(s), k).value)
    decreases k
  {
    hide Inv, Step;
    if k == 0 {
      InitialInv(s);
    } else {
      EveryStep(t, s, k - 1);
      StepKeeps(t, Passes(t, InitialState(s), k - 1).value);
    }
  }

  lemma {:induction false} LoopKeeps(t: Tables, d: State)
    requires Inv(d) && ParseLoop(t, d).Some?
    ensures Inv(ParseLoop(t, d).value) && ParseLoop(t, d).value.stack == []
    decreases |d.cursor.rest|, ModeRank(d.cursor.mode)
  {
    hide Inv, GetNextNode, OnEvent;
    if GetNextNode(t, d.cursor, d.stack == []) != FileDone {
      StepKeeps(t, d);
      StepAdvances(t, d);
      LoopKeeps(t, Step(t, d).value);
    }
  }

  /** Any accepted input has balanced, properly nested tags; it has at most one root, whose open and
      close tags in document order are exactly the tags that were read; and no element of it has two
      attributes of one name. */
  lemma AcceptedIsNested(t: Tables, s: CString)
    requires ParseDocument(t, s).Some?
    ensures var d := ParseDocument(t, s).value;
      IsBalanced(d.tags) && |d.roots| <= 1 && Walk(d.roots) == d.tags && HasDistinctAttrs(d.roots)
  {
    hide ParseLoop, Pending, Walk, HasDistinctAttrs, SkipProlog;
    var d0 := InitialState(SkipProlog(s).rest);
    InitialInv(SkipProlog(s).rest);
    LoopKeeps(t, d0);
    var d := ParseLoop(t, d0).value;
    assert d.open == [];
    assert Walk(d.roots) + [] == Walk(d.roots);
  }
}
