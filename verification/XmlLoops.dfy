/** The printer and the parser as they run, one after the other. */
module XmlLoops {
  import opened Bytes
  import opened Names
  import opened XmlTree
  import opened Printer
  import opened ParserLoops
  import P = Parser
  import R = RoundTrip
  import N = Nesting

  /** `ixmlPrintNode` into a buffer, and `ixmlParseBuffer` on what is in the buffer up to its NUL: the tree under
      construction ends up as the canonical form of the tree that was printed. */
  method PrintThenParse(t: Tables, root: Node) returns (ok: bool, parser: XmlParser)
    requires root.Element? && R.AreNodes(t, [root])
    ensures ok && parser.roots == R.Canonical([root]) && parser.stack == []
    ensures parser.roots == [root] <==> R.IsDataShaped([root])
  {
    hide P.ParseLoop, PrintNodes, R.AreNodes, R.Canonical, R.IsDataShaped;
    var m := PrintNode(root);
    var text: CString := if m.buf == null then [] else m.buf[..m.length];
    R.ParsePrinted(t, root);
    R.CanonicalIsIdentity([root]);
    parser := new XmlParser(t, text);
    ok := parser.ParseDocument();
    StackIsEmpty(t, text);
  }

  /** A document is accepted only at a moment when the element stack is empty. */
  lemma StackIsEmpty(t: Tables, s: CString)
    requires P.ParseDocument(t, s).Some?
    ensures P.ParseDocument(t, s).value.stack == []
  {
    hide P.ParseLoop, P.SkipProlog, N.Inv;
    var rest := P.SkipProlog(s).rest;
    N.InitialInv(rest);
    N.LoopKeeps(t, P.InitialState(rest));
  }
}
