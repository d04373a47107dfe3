/** The states of the parse loop when tags and nodes have been read. */
module ParserStates {
  import opened Options
  import opened Bytes
  import opened Names
  import opened XmlTree
  import opened Parser

  /** One pass of the loop. */
  lemma LoopStep(t: Tables, d: State, c: Cursor, e: Event, d': State)
    requires GetNextNode(t, d.cursor, d.stack == []) == Got(c, e)
    requires OnEvent(d.(cursor := c), e) == Some(d')
    ensures ParseLoop(t, d) == ParseLoop(t, d')
  {
    hide GetNextNode, OnEvent;
  }

  function WithTop(d: State, f: Frame): State
    requires d.open != []
  {
    d.(open := DropLast(d.open) + [f])
  }

  function Opened(d: State, name: CString, attrs: seq<Attr>, rest: CString): State {
    d.(cursor := Cursor(rest, CONTENT, Some(name)), hasTop := true, stack := d.stack + [name],
       open := d.open + [Frame(name, attrs, [])], tags := d.tags + [Open(name)])
  }

  function WithChildren(d: State, nodes: seq<Node>): State
    requires d.open != []
  {
    WithTop(d, Last(d.open).(children := Last(d.open).children + nodes))
  }

  /** The tags of a tree in document order. */
  function Walk(nodes: seq<Node>): seq<Tag>
    decreases nodes
  {
    if nodes == [] then []
    else
      (if nodes[0].Element? then [Open(nodes[0].name)] + Walk(nodes[0].children) + [Close(nodes[0].name)] else [])
      + Walk(nodes[1..])
  }

  /** The name left in `lastElem` by the start tags of a tree. */
  function LastName(nodes: seq<Node>, last: Option<CString>): Option<CString>
    decreases nodes
  {
    if nodes == [] then last
    else if nodes[0].Element? then LastName(nodes[1..], LastName(nodes[0].children, Some(nodes[0].name)))
    else LastName(nodes[1..], last)
  }

  /** The state when the printed form of `nodes` has been read and the tag behind it is next. */
  function AfterNodes(d: State, nodes: seq<Node>, rest: CString): State
    requires d.open != []
  {
    WithChildren(d, nodes).(tags := d.tags + Walk(nodes),
                            cursor := Cursor(rest, ELEMENT, LastName(nodes, d.cursor.lastElem)))
  }

  lemma AfterNothing(d: State, rest: CString)
    requires d.open != []
    ensures AfterNodes(d, [], rest) == d.(cursor := Cursor(rest, ELEMENT, d.cursor.lastElem))
  {
    var f := Last(d.open);
    assert f.children + [] == f.children;
    assert DropLast(d.open) + [f] == d.open;
    assert d.tags + [] == d.tags;
  }

  /** The state when an element and its end tag have been read. */
  function AfterElement(d: State, n: Node, rest: CString): State
    requires d.open != [] && n.Element?
  {
    WithChildren(d, [n]).(tags := d.tags + Walk([n]), cursor := Cursor(rest, CONTENT, LastName([n], d.cursor.lastElem)))
  }

  /** Closing an element whose children have all been read. */
  lemma CloseAfterNodes(d: State, name: CString, attrs: seq<Attr>, start: CString, children: seq<Node>,
                        end: CString, rest: CString)
    requires d.open != [] && d.hasTop
    ensures var o := AfterNodes(Opened(d, name, attrs, start), children, end);
      CloseElement(o.(cursor := o.cursor.(rest := rest)), name)
      == Some(AfterElement(d, Element(name, attrs, children), rest))
  {
    var n := Element(name, attrs, children);
    var op := Opened(d, name, attrs, start);
    var o := AfterNodes(op, children, end);
    assert [] + children == children;
    assert DropLast(op.open) == d.open;
    assert Last(o.open) == Frame(name, attrs, children);
    assert DropLast(o.open) == d.open && DropLast(o.stack) == d.stack;
    assert [n][1..] == [];
    assert Walk([n]) == [Open(name)] + Walk(children) + [Close(name)];
    assert d.tags + [Open(name)] + Walk(children) + [Close(name)] == d.tags + Walk([n]);
    assert LastName([n], d.cursor.lastElem) == LastName(children, Some(name));
  }

  /** Closing the innermost element when it is the root. */
  lemma CloseOnly(d: State, f: Frame)
    requires d.stack == [f.name] && d.open == [f] && d.roots == []
    ensures CloseElement(d, f.name)
         == Some(d.(stack := [], open := [], roots := [Element(f.name, f.attrs, f.children)],
                    tags := d.tags + [Close(f.name)], cursor := d.cursor.(mode := CONTENT)))
  {
    assert DropLast(d.stack) == [] && DropLast(d.open) == [];
    var n := Element(f.name, f.attrs, f.children);
    assert [] + [n] == [n];
  }

  lemma CloseRoot(name: CString, attrs: seq<Attr>, s: CString, start: CString, children: seq<Node>, end: CString,
                  rest: CString)
    ensures var n := Element(name, attrs, children);
      var o := AfterNodes(Opened(InitialState(s), name, attrs, start), children, end);
      CloseElement(o.(cursor := o.cursor.(rest := rest)), name)
      == Some(State(Cursor(rest, CONTENT, o.cursor.lastElem), [], [], [n], true, Walk([n])))
  {
    hide CloseElement, LastName;
    var n := Element(name, attrs, children);
    var op := Opened(InitialState(s), name, attrs, start);
    var o := AfterNodes(op, children, end);
    assert [] + children == children;
    assert op.open == [Frame(name, attrs, [])] && op.stack == [name] && op.tags == [Open(name)];
    assert o.open == [Frame(name, attrs, children)];
    assert [n][1..] == [];
    assert Walk([n]) == [Open(name)] + Walk(children) + [Close(name)];
    CloseOnly(o.(cursor := o.cursor.(rest := rest)), Frame(name, attrs, children));
  }

  /** The state when nodes have been read as the next children of the innermost open element, still in its content */
  function AfterSome(d: State, nodes: seq<Node>, rest: CString): State
    requires d.open != []
  {
    WithChildren(d, nodes).(tags := d.tags + Walk(nodes),
                              cursor := Cursor(rest, CONTENT, LastName(nodes, d.cursor.lastElem)))
  }

  lemma AfterMore(d: State, nodes: seq<Node>, more: seq<Node>, mid: CString, rest: CString)
    requires d.open != [] && |nodes| <= 1
    ensures AfterNodes(AfterSome(d, nodes, mid), more, rest) == AfterNodes(d, nodes + more, rest)
  {
    hide Walk, LastName;
    var f := Last(d.open);
    WalkTwice(nodes, more, d.cursor.lastElem);
    assert f.children + nodes + more == f.children + (nodes + more);
    assert DropLast(AfterSome(d, nodes, mid).open) == DropLast(d.open);
    assert d.tags + Walk(nodes) + Walk(more) == d.tags + (Walk(nodes) + Walk(more));
  }

  lemma WalkTwice(nodes: seq<Node>, more: seq<Node>, last: Option<CString>)
    requires |nodes| <= 1
    ensures Walk(nodes + more) == Walk(nodes) + Walk(more)
    ensures LastName(nodes + more, last) == LastName(more, LastName(nodes, last))
  {
    if nodes == [] {
      assert nodes + more == more;
    } else {
      var n := nodes[0];
      assert nodes == [n] && [n][1..] == [] && (nodes + more)[0] == n && (nodes + more)[1..] == more;
    }
  }

  lemma AfterNone(d: State, rest: CString)
    requires d.open != []
    ensures AfterSome(d, [], rest) == d.(cursor := Cursor(rest, CONTENT, d.cursor.lastElem))
  {
    var f := Last(d.open);
    assert f.children + [] == f.children && DropLast(d.open) + [f] == d.open && d.tags + [] == d.tags;
  }

  lemma AfterLeaf(d: State, n: Node, rest: CString)
    requires d.open != [] && !n.Element?
    ensures AfterSome(d, [n], rest) == WithChildren(d, [n]).(cursor := Cursor(rest, CONTENT, d.cursor.lastElem))
  {
    assert [n][1..] == [] && Walk([n]) == [] && d.tags + [] == d.tags;
    assert LastName([n], d.cursor.lastElem) == d.cursor.lastElem;
  }

  lemma AfterOne(d: State, n: Node, rest: CString)
    requires d.open != [] && n.Element?
    ensures AfterSome(d, [n], rest) == AfterElement(d, n, rest)
  {
  }

  lemma AfterSomeKeeps(d: State, nodes: seq<Node>, rest: CString)
    requires d.open != []
    ensures var t := AfterSome(d, nodes, rest);
      t.open != [] && t.stack == d.stack && t.hasTop == d.hasTop && t.cursor.rest == rest && t.cursor.mode == CONTENT
  {
  }

  lemma AfterNodesCursor(d: State, nodes: seq<Node>, rest: CString)
    requires d.open != []
    ensures AfterNodes(d, nodes, rest).cursor.rest == rest && AfterNodes(d, nodes, rest).cursor.mode == ELEMENT
  {
  }

  /** Closing an element depends on the position of the cursor only. */
  lemma CloseAnyMode(d: State, name: CString, mode: Mode)
    ensures CloseElement(d.(cursor := d.cursor.(mode := mode)), name) == CloseElement(d, name)
  {
  }

  lemma CloseEmpty(d: State, name: CString, attrs: seq<Attr>, mode: Mode, rest: CString)
    requires d.open != [] && d.hasTop
    ensures CloseElement(Opened(d, name, attrs, rest).(cursor := Cursor(rest, mode, Some(name))), name)
         == Some(AfterSome(d, [Element(name, attrs, [])], rest))
  {
    hide CloseElement, AfterElement;
    var o := Opened(d, name, attrs, rest);
    AfterNothing(o, rest);
    CloseAfterNodes(d, name, attrs, rest, [], rest, rest);
    AfterOne(d, Element(name, attrs, []), rest);
    CloseAnyMode(o, name, mode);
    CloseAnyMode(o, name, ELEMENT);
  }

  lemma CloseFull(d: State, name: CString, attrs: seq<Attr>, start: CString, nodes: seq<Node>, end: CString, rest: CString)
    requires d.open != [] && d.hasTop
    ensures var d2 := Opened(d, name, attrs, start);
      d2.open != [] &&
      var o := AfterNodes(d2, nodes, end);
      && o.cursor.rest == end && o.cursor.mode == ELEMENT
      && CloseElement(o.(cursor := o.cursor.(rest := rest)), name)
         == Some(AfterSome(d, [Element(name, attrs, nodes)], rest))
  {
    hide CloseElement;
    CloseAfterNodes(d, name, attrs, start, nodes, end, rest);
    AfterOne(d, Element(name, attrs, nodes), rest);
  }

  lemma CloseEmptyRoot(name: CString, attrs: seq<Attr>, s: CString, mode: Mode, rest: CString)
    ensures var n := Element(name, attrs, []);
      CloseElement(Opened(InitialState(s), name, attrs, rest).(cursor := Cursor(rest, mode, Some(name))), name)
      == Some(State(Cursor(rest, CONTENT, Some(name)), [], [], [n], true, Walk([n])))
  {
    hide CloseElement, Walk;
    var o := Opened(InitialState(s), name, attrs, rest);
    AfterNothing(o, rest);
    CloseRoot(name, attrs, s, rest, [], rest, rest);
    CloseAnyMode(o, name, mode);
    CloseAnyMode(o, name, ELEMENT);
  }
}
