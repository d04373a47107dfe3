# A verified model of the core of libupnp

Three parts of the C library under `iUPnP/libupnp` are modelled and their properties proved for all inputs and
all runs. Paths below are relative to the root of the repository.

**The XML printer and parser** (`ixml/`). `Bytes`, `Utf8`, `Escape` and `Names` hold C strings, the UTF-8 codec of
section 2 of RFC 2279, the escaping of the printer with the un-escaping of the tokenizer, and name tokens. (`Options`
is the option type that all parts use.)
`XmlTree` says what the printer prints for a tree; `Parser` has one function for each routine of the parser, on the
suffix of the input that the cursor points at. `Spelling` and `XmlSyntax` say, in text written out and without a constant
or a function of printer or parser, which texts are documents and which tree each of them stands for: empty-element tags,
values in either kind of quotes, entities in any letter case, numeric references, names in any encoding, comments and
processing instructions between and inside tags, the XML declaration, DOCTYPE, and what the parser takes although XML does
not allow it. `XmlTokens`, `XmlTags`, `ParserStates` and `XmlSpelling` prove that the parser accepts every such text and
builds its tree; `XmlOrigins` and `XmlAccepted` prove that it accepts nothing else. `RoundTrip` proves that what is printed
is one of these texts, so that parsing it gives back the tree exactly when the tree is data-shaped, and what it gives back
otherwise. `Nesting` proves what holds at every pass of the parse loop and of every document that is accepted. `MemBuf`,
`Printer` and `ParserLoops` are the code as it runs: a growing buffer, a printer that appends to it, and a parser object
with a cursor, a token buffer, an element stack and a tree under construction, each proved to compute the functions above;
`XmlLoops` runs one after the other. `Attributes` is the attribute list of an element as linked nodes on the heap.

**The thread pool and the list under it** (`pthread/`). `PoolSpec` says what each stretch of code between taking
and releasing `tp->mutex` does; `ThreadPool` is the pool object, with a method for each stretch. `PoolSystem` is the
pool with any number of workers and of clients inside calls: an event is one stretch, and a condition wait is two
of them, asleep without the mutex and awake with it. `PoolThreads` proves thread accounting and that no wakeup is
lost, `PoolJobs` that the three queues are one line with two cuts and that no job is lost, started twice or
overtaken, `PoolPickup` which calls can leave a client of `ThreadPoolAddPersistent` asleep for nothing, and
`PoolShutdown` what becomes of jobs and workers around a shutdown. `PoolPersistent` proves that the persistent job goes
before all queues, `PoolDemand` when a job is accepted, when a worker is created for it and when an idle one leaves, and
`PoolIds` what job ids tell; `PoolReach` has runs and the states from which the runs that show a bad end start. `LinkedList` is the sentinel list with its free list of recycled nodes on the heap.

**GENA eventing, device and control point** (`gena/`), after section 4.2 of the UPnP Device Architecture 1.0.
`GenaDevice` says what each stretch under `HandleLock` does; `GenaService` is the device as an object. `GenaKeys`
proves that the jobs under way for a subscription carry exactly the keys between its two counters and are sent in
turn, `GenaBuffers` that shared buffers are counted and freed once, `GenaFanOut` whom `genaNotifyAll` notifies, `GenaDrain` that the requeue loop ends, and `GenaExpiry` how long a subscription stays and that nothing is sent for one
that has run out. `GenaControlPoint` is the list of a control point, and `GenaEndToEnd` puts
the device, `genaSubscribe` and the handlers of NOTIFY requests together under `SubscribeLock`.

What the proofs brought to light:

- The printer does not visit what follows a text or a CDATA section, and the parser drops a text that is only white
  space. The round trip is therefore stated as an equivalence: `RoundTrip.RoundTrip` and `RoundTrip.ParsePrinted`.
- Which texts the parser accepts, and what it builds from them, is known exactly: `XmlAccepted.AcceptedIffSpelled`. It
  differs from XML in both directions. A start tag can lack its ">" in front of its end tag, or, without attributes, in
  front of another start tag (`XmlSpelling.UnclosedTagIsRead`); ">" can stand in front of the root; nothing needs to stand
  between two attributes, and comments can stand inside tags; a numeric reference counts modulo 2^32; a CDATA section also
  ends at an octet that is not ASCII or no XML character, which is dropped with the two behind it; text without a root is
  accepted, and an instruction can be left open at its end. On the other hand a comment reaches from "<!--" to the first
  "-->", with no "-" in front of that, so that the empty comment is refused (`XmlSpelling.EmptyCommentIsRefused`) and "<!-->"
  is a comment.
- `Parser_isValidXmlName` looks at the rest of a name only if the first octet is a letter, and accepts everything
  else, although `iUPnP/libupnp/ixml/ixml.h:1154` promises an error for an invalid name (`Attributes.DigitIsAccepted`).
  It also looks at single octets, and so refuses names that the parser accepts (`Attributes.AccentIsRefused`).
  `Attributes.NameCheckIsExact` says for which strings it is right; for ASCII strings, if they begin with a letter.
- When `ixmlElement_setAttributeNode` replaces an attribute, the new node is linked neither to the ones behind the old
  one, which are lost, nor back to the ones before: `Attributes.Element.SetAttributeNode`.
  `ixmlElement_setAttribute` and the parser never replace: `Attributes.Element.AddNew` and
  `Attributes.Element.ProcessAttributeName`.
- `ThreadPoolRemove` of a persistent job that waits in its slot leaves the client that added it asleep, and so does
  `ThreadPoolShutdown`; no other call does: `PoolPickup.SleepsForNothingInRun`, `PoolPickup.RemoveLeavesSleeper` and
  `PoolPickup.ShutdownLeavesSleeper`.
- `ThreadPoolAdd` does not look at `shutdown`. A job that it accepts after the queues were drained is never run, and
  its `free_func` is never called: `PoolShutdown.SettledIffInTime` and `PoolShutdown.AcceptedAfterDrain`.
- `ThreadPoolAddPersistent` compares with `maxThreads` without a case for `INFINITE_THREADS`: with no limit it never creates
  a worker, and refuses the job if one worker is left for others: `PoolDemand.PersistentDecides`.
- `CreateWorker` does not come back to the test of `AddWorker` after it has waited for another worker to start; what still
  holds of each worker that is created is `PoolDemand.CreatedForReason`.
- A job id is the number of calls that had ended, so that two jobs can have the same one if a call is open:
  `PoolIds.IdsCountCalls` and `PoolIds.IdIsNew`.
- `ThreadPoolShutdown` waits only for workers that have started. It can return, and destroy the mutex, while one that
  `CreateWorker` has created is about to lock it: `PoolShutdown.AllGoneIffNonePending` and
  `PoolShutdown.ReturnsBeforeStart`.
- If a NOTIFY is lost or times out before `genaSubscribe` has put the subscription on the list, a later one can be
  answered 412, and the device then drops the subscription: `GenaEndToEnd.LostNotifyIsRefused`. Exactly when a NOTIFY
  is refused says `GenaEndToEnd.RefusedIff`; without such an early loss no live subscription ever is:
  `GenaEndToEnd.RefusedOnlyIfDead`.
- `genaInitNotify` advances its key without the check for overflow. It does no harm, because the key it takes is
  always 0: `GenaKeys.FirstKey`.
- The low queue ages on `maxIdleTime` and not on `starvationTime` (`iUPnP/libupnp/pthread/ThreadPool.c:371`); the
  model follows the code.
- `EMAXTHREADS`, `INVALID_POLICY` and `INVALID_JOB_ID` are the same positive number, since `<<` binds tighter than
  `&`, although the comment at `iUPnP/libupnp/pthread/ThreadPool.c:613` calls a failure negative. The callers
  only compare with 0, and so does the model.
- A "<" in front of an overlong encoding of "/" leaves "</" in the token buffer although the token is not read; the
  next step fails all the same: `ParserLoops.OverlongSlash`.
- `genaNotifyThread` puts jobs out of order back only if `UPNP_ENABLE_NOTIFICATION_REORDERING` is defined, which
  `iUPnP/libupnp/autoconfig.h:131` does.

Assertions (`assert`) are taken to be compiled out. `char` is taken to be signed. Memory allocation is taken to succeed. Clocks, the outcome of
`pthread_create`, which blocked thread a signal wakes, spurious wakeups and the outcomes of network exchanges are
parameters of the steps. "Every input" of the parser leaves out those in which C itself would read behind the end of
the string: a numeric character reference, or a CDATA section, that runs into it.

## Model

| member | source | states |
|---|---|---|
| `Utf8.DecodeEncode` | iUPnP/libupnp/ixml/ixmlparser.c:574-651 | Decoding an encoded character gives the character and the length of its encoding, for every value up to 0x7FFFFFFF and whatever follows |
| `Utf8.DecodeLocal` | iUPnP/libupnp/ixml/ixmlparser.c:574-651 | A decoding that succeeds depends only on the octets that it takes, and these are within the string |
| `Utf8.EncodingHasNoNul` | iUPnP/libupnp/ixml/ixmlparser.c:861-918 | No character but NUL has a NUL in its encoding |
| `Utf8.SequenceIsDecoded` | iUPnP/libupnp/ixml/ixmlparser.c:574-651 | Every octet sequence of the table in section 2 of RFC 2279, shortest or not, is decoded as the number that its bits make up, whatever follows |
| `Utf8.EncodingIsSequence` | iUPnP/libupnp/ixml/ixmlparser.c:861-918 | A number is encoded as the shortest sequence of that table for it |
| `Escape.EscapedHasNoMarkup` | iUPnP/libupnp/ixml/ixml.c:51-85 | Escaped text holds no octet that the parser takes for markup, and is at least as long as the text |
| `Escape.GetCharOfEscaped` | iUPnP/libupnp/ixml/ixmlparser.c:727-837 | Reading one character of escaped text gives the character that was escaped, with the right length, for every XML character |
| `Escape.CopyTokenUndoesEscape` | iUPnP/libupnp/ixml/ixmlparser.c:943-1004 | `Parser_copyToken` on the output of `copy_with_escape` gives back the original, for every nonempty, minimally encoded string of XML characters |
| `Spelling.EscapesByTable` | iUPnP/libupnp/ixml/ixml.c:51-85 | Escaping writes for each octet, in order, "&lt;", "&gt;", "&amp;", "&apos;" or "&quot;" for the five characters and the octet itself for all others |
| `Spelling.EntityIsRead` | iUPnP/libupnp/ixml/ixmlparser.c:764-783 | Each of these five texts, in any letter case and whatever follows, is read as its character, with its length |
| `Spelling.ReferenceIsRead` | iUPnP/libupnp/ixml/ixmlparser.c:784-821 | A decimal or hexadecimal reference with any number of digits, in letters of either case, is read as the character whose number is left of it modulo 2^32, if that is an XML character, with its length and whatever follows |
| `Spelling.PiecesAreCopied` | iUPnP/libupnp/ixml/ixmlparser.c:943-1004 | `Parser_copyToken` turns character data in any spelling into the UTF-8 text that it stands for |
| `Names.NamesAreSpelled` | iUPnP/libupnp/ixml/ixmlparser.c:1061-1070 | A string is taken as one name token if and only if it is a letter and name characters, each in its shortest encoding |
| `Names.NameStops` | iUPnP/libupnp/ixml/ixmlparser.c:1061-1070 | The scan of a name token takes the whole name and stops at the first character behind it that is no name character |
| `Parser.TokenAdvances` | iUPnP/libupnp/ixml/ixmlparser.c:1010-1083 | A token that is read takes at least one octet, and a failed read never moves the cursor backwards |
| `Parser.ContentAdvances` | iUPnP/libupnp/ixml/ixmlparser.c:1262-1379 | A node read in content takes at least one octet, or leaves content |
| `Parser.NextNodeAdvances` | iUPnP/libupnp/ixml/ixmlparser.c:1837-1932 | Every node that is read lowers the pair of octets left and content flag, in spite of the tokens read twice; the end is reported exactly at the end of the input |
| `Parser.StepAdvances` | iUPnP/libupnp/ixml/ixmlparser.c:2355-2442 | Every pass of the parse loop lowers that pair, so that the loop ends on every input |
| `XmlTags.AttributeParsed` | iUPnP/libupnp/ixml/ixmlparser.c:1680-1829 | An attribute in any spelling is read with the text that its value stands for, and the token behind it decides what comes next |
| `XmlSpelling.EmptyTagIsRead` | iUPnP/libupnp/ixml/ixmlparser.c:1893-1912 | An empty-element tag with any distinct attributes, whatever follows, is read from every state inside an element as a closed element with those attributes and no children |
| `XmlSpelling.ParseRoot` | iUPnP/libupnp/ixml/ixmlparser.c:1104-1173 | A root in any spelling, an empty-element tag or one with content, is read as the element that it spells, whatever follows |
| `XmlSpelling.ParseItems` | iUPnP/libupnp/ixml/ixmlparser.c:2355-2442 | The content of an element, in whatever spelling, is read from any state inside an element as the nodes that it stands for |
| `XmlSpelling.ParseSpelled` | iUPnP/libupnp/ixml/ixmlparser.c:2326-2458 | The parser accepts every spelling of a document, and builds exactly the nodes that the text stands for, with their tags in document order |
| `XmlAccepted.ElementOf` | iUPnP/libupnp/ixml/ixmlparser.c:1837-1932 | Wherever a start tag is read on the way to the end of an accepted text, the text there is the spelling of an element, with its content and its end tag |
| `XmlAccepted.AcceptedIsSpelled` | iUPnP/libupnp/ixml/ixmlparser.c:2326-2458 | Every text that the parser accepts is the spelling of a document |
| `XmlAccepted.AcceptedIffSpelled` | iUPnP/libupnp/ixml/ixmlparser.c:2326-2458 | The parser accepts a text and builds certain nodes from it if and only if the text is the spelling of a document with these nodes |
| `XmlSpelling.UnclosedTagIsRead` | iUPnP/libupnp/ixml/ixmlparser.c:1104-1173 | A start tag without its ">" in front of another tag is accepted, for all names |
| `XmlSpelling.EmptyCommentIsRefused` | iUPnP/libupnp/ixml/ixmlparser.c:454-461 | A document that begins with the empty comment is refused |
| `RoundTrip.NodesArePrinted` | iUPnP/libupnp/ixml/ixml.c:92-182 | What is printed for nodes is, with the new lines between tags, a spelling of their canonical form: the same items in the same order, escaped by the table |
| `RoundTrip.PrintedIsSpelled` | iUPnP/libupnp/ixml/ixml.c:92-182 | What is printed for any document tree is a spelling of its canonical form |
| `RoundTrip.ParsePrinted` | iUPnP/libupnp/ixml/ixml.c:365-378 | Parsing what is printed for any document tree over plain names and XML characters succeeds and gives the canonical form of the tree |
| `RoundTrip.RoundTrip` | iUPnP/libupnp/ixml/ixml.c:92-182 | Printing and parsing gives back the same tree if and only if the tree is data-shaped |
| `RoundTrip.CanonicalIsIdentity` | iUPnP/libupnp/ixml/ixml.c:108-116 | The canonical form of a tree is the tree itself if and only if the tree is data-shaped |
| `RoundTrip.CanonicalIsDataShaped` | iUPnP/libupnp/ixml/ixmlparser.c:1277-1315 | A canonical form is data-shaped, so that printing and parsing a second time changes nothing |
| `Nesting.StepKeeps` | iUPnP/libupnp/ixml/ixmlparser.c:2355-2442 | A pass of the parse loop keeps the invariant of stack, open elements, tree and tags |
| `Nesting.EveryStep` | iUPnP/libupnp/ixml/ixmlparser.c:2355-2447 | On every input and after any number of passes, the element stack spells the names from the document to the current node, and the tags of the tree built are the tags read |
| `Nesting.EndTagChecksAgree` | iUPnP/libupnp/ixml/ixmlparser.c:2292-2318 | The check of an end tag against the element stack and the check against the current node never disagree |
| `Nesting.AcceptedIsNested` | iUPnP/libupnp/ixml/ixmlparser.c:2326-2458 | An accepted input has balanced, properly nested tags, at most one root, the tags of the tree in the order in which they were read, and no two attributes of one name in an element |
| `MemBuf.Buffer.SetSize` | iUPnP/libupnp/ixml/ixmlmembuf.c:57-104 | There is room for the new length, at most `size_inc` octets more are allocated, and the contents stay |
| `MemBuf.Buffer.Assign` | iUPnP/libupnp/ixml/ixmlmembuf.c:129-157 | The buffer holds exactly the data, NUL-terminated |
| `MemBuf.Buffer.Insert` | iUPnP/libupnp/ixml/ixmlmembuf.c:186-217 | The data is spliced in at the index, or nothing changes and the error is returned for an index behind the end |
| `MemBuf.Buffer.AppendStr` | iUPnP/libupnp/ixml/ixmlmembuf.c:178-183 | The string is put behind the contents |
| `MemBuf.Buffer.Append` | iUPnP/libupnp/ixml/ixmlmembuf.c:168-175 | The octet is put behind the contents |
| `MemBuf.Buffer.Destroy` | iUPnP/libupnp/ixml/ixmlmembuf.c:118-126 | The buffer is empty and unallocated |
| `Printer.CopyWithEscape` | iUPnP/libupnp/ixml/ixml.c:51-85 | The loop appends the escaped text to the buffer |
| `Printer.PrintAttrsTo` | iUPnP/libupnp/ixml/ixml.c:131-140 | An attribute and its siblings are appended as the tree specification says |
| `Printer.PrintNodesTo` | iUPnP/libupnp/ixml/ixml.c:92-182 | A node and its siblings are appended as the tree specification says |
| `Printer.PrintNode` | iUPnP/libupnp/ixml/ixml.c:365-378 | The new buffer holds what the tree specification says for the document |
| `ParserLoops.XmlParser.SkipMisc` | iUPnP/libupnp/ixml/ixmlparser.c:468-494 | The cursor stops behind all comments, processing instructions and white space, or the skip fails, as the parser function says |
| `ParserLoops.XmlParser.SkipProlog` | iUPnP/libupnp/ixml/ixmlparser.c:500-534 | The cursor stops behind the XML declaration, the DOCTYPE and what is around them |
| `ParserLoops.XmlParser.SkipDocTypeAt` | iUPnP/libupnp/ixml/ixmlparser.c:335-372 | The loop over brackets and quoted strings ends where the recursive function does |
| `ParserLoops.XmlParser.ReadDigits` | iUPnP/libupnp/ixml/ixmlparser.c:786-798 | The loop over the digits of a reference stops where the specification does, with the same 32-bit sum |
| `ParserLoops.XmlParser.ReadChar` | iUPnP/libupnp/ixml/ixmlparser.c:727-837 | One character with its length, or a failure, as the specification says |
| `ParserLoops.XmlParser.CopyToken` | iUPnP/libupnp/ixml/ixmlparser.c:943-1004 | The loop fills the token buffer with the decoded token, and fails exactly when the specification does |
| `ParserLoops.XmlParser.GetNextToken` | iUPnP/libupnp/ixml/ixmlparser.c:1010-1083 | Token buffer, cursor and saved cursor are those of the token that the parser function reads |
| `ParserLoops.XmlParser.ProcessSTag` | iUPnP/libupnp/ixml/ixmlparser.c:1107-1169 | A start tag is read as the parser function reads it, with the same state and cursor afterwards |
| `ParserLoops.XmlParser.ProcessETag` | iUPnP/libupnp/ixml/ixmlparser.c:1385-1451 | An end tag is read as the parser function reads it |
| `ParserLoops.XmlParser.ProcessAttribute` | iUPnP/libupnp/ixml/ixmlparser.c:1680-1829 | An attribute is read as the parser function reads it, and the token behind it decides the state |
| `ParserLoops.XmlParser.ProcessContent` | iUPnP/libupnp/ixml/ixmlparser.c:1262-1379 | Content is read as the parser function reads it, with the backup over leading white space |
| `ParserLoops.XmlParser.ProcessCData` | iUPnP/libupnp/ixml/ixmlparser.c:1210-1256 | A CDATA section is read as the parser function reads it |
| `ParserLoops.XmlParser.GetNextNode` | iUPnP/libupnp/ixml/ixmlparser.c:1837-1932 | The next node, the cursor and the state are those of the parser function |
| `ParserLoops.XmlParser.IsDuplicateAttribute` | iUPnP/libupnp/ixml/ixmlparser.c:2004-2024 | The answer is yes if and only if the current element has an attribute of that name |
| `ParserLoops.XmlParser.ProcessAttributeName` | iUPnP/libupnp/ixml/ixmlparser.c:2032-2060 | The attribute is put behind the others of the current element, or refused if its name is there; the list of nodes that this builds is in `Attributes` |
| `ParserLoops.XmlParser.ProcessElementName` | iUPnP/libupnp/ixml/ixmlparser.c:2172-2235 | The element is opened on stack and tree, or refused if it would be a second root |
| `ParserLoops.XmlParser.VerifyETag` | iUPnP/libupnp/ixml/ixmlparser.c:2292-2318 | The innermost element is closed on stack and tree, or refused if the name differs |
| `ParserLoops.XmlParser.ParseLoop` | iUPnP/libupnp/ixml/ixmlparser.c:2355-2447 | The loop ends, and with the result and the state of the parser function |
| `ParserLoops.XmlParser.ParseDocument` | iUPnP/libupnp/ixml/ixmlparser.c:2326-2458 | On every input the parser accepts, and builds the tree, exactly as the parser function says |
| `ParserLoops.OverlongSlash` | iUPnP/libupnp/ixml/ixmlparser.c:1034-1041 | Before an overlong "/" the token is lost half-way, what is left in the token buffer is "</", and the token behind it cannot be read either |
| `XmlLoops.PrintThenParse` | iUPnP/libupnp/ixml/ixml.c:365-378 | The buffer that the printer fills, given to the parser, makes it build the canonical form of the tree, which is the same tree if and only if that is data-shaped |
| `Attributes.GetAfterPut` | iUPnP/libupnp/ixml/element.c:85-169 | After a name is set, reading it gives the value, and reading any other name gives what it gave before |
| `Attributes.PutKeepsOrder` | iUPnP/libupnp/ixml/element.c:106-169 | Names stay distinct and in the order in which they were first set |
| `Attributes.PutTwice` | iUPnP/libupnp/ixml/element.c:106-169 | Of two values set for a name the second one counts |
| `Attributes.Element.GetAttribute` | iUPnP/libupnp/ixml/element.c:85-103 | The walk along the list finds the value that the map has for the name |
| `Attributes.Element.SetAttribute` | iUPnP/libupnp/ixml/element.c:106-169 | The list stays linked in both directions and becomes the map with the name set; nothing changes if the name is not accepted |
| `Attributes.Element.RemoveAttribute` | iUPnP/libupnp/ixml/element.c:172-198 | The node stays where it is and its value becomes null; all other entries stay |
| `Attributes.Element.SetAttributeNode` | iUPnP/libupnp/ixml/element.c:223-302 | A new name goes to the end of the list; for a name that is there, the list ends with the new node in its place, stays linked both ways if and only if the first attribute was replaced, and loses nothing if and only if the last one was; the errors leave the list as it is |
| `Attributes.Element.ProcessAttributeName` | iUPnP/libupnp/ixml/ixmlparser.c:2004-2060 | The parser refuses exactly a name that is there, and then changes nothing; otherwise a new node goes to the end of the list, which stays linked both ways, and nothing is replaced |
| `Attributes.ParserAgrees` | iUPnP/libupnp/ixml/ixmlparser.c:2004-2060 | What that does to the list is what the parser function does to the attributes of the open element |
| `Attributes.NameCheckIsExact` | iUPnP/libupnp/ixml/ixmlparser.c:2461-2481 | The name check agrees with what the tokenizer takes for a name if and only if the string begins with an ASCII letter and is ASCII or no name, or begins with an octet above 127 and is a name |
| `Attributes.DigitIsAccepted` | iUPnP/libupnp/ixml/ixmlparser.c:2471-2480 | "1" passes although it is no name |
| `Attributes.AccentIsRefused` | iUPnP/libupnp/ixml/ixmlparser.c:2471-2480 | "a" with U+00E9 behind it is refused although it is a name |
| `Attributes.IsValidXmlName` | iUPnP/libupnp/ixml/ixmlparser.c:2461-2481 | The loop accepts a string if and only if its first octet is no letter or all octets behind it are name characters |
| `LinkedList.FreeList.Alloc` | iUPnP/libupnp/pthread/FreeList.c:51-69 | The first free node is taken off the chain, or a new one is made if the chain is empty |
| `LinkedList.FreeList.Free` | iUPnP/libupnp/pthread/FreeList.c:71-90 | The node goes in front of the chain while that stays below the maximum, and is given up otherwise |
| `LinkedList.FreeList.Destroy` | iUPnP/libupnp/pthread/FreeList.c:92-110 | The chain is empty |
| `LinkedList.LinkedList.constructor` | iUPnP/libupnp/pthread/LinkedList.c:83-106 | An empty list between two linked sentinels |
| `LinkedList.LinkedList.AddAfter` | iUPnP/libupnp/pthread/LinkedList.c:128-150 | The item is inserted behind the node in both the node sequence and the item sequence, and its node comes from the free chain or is new |
| `LinkedList.LinkedList.AddBefore` | iUPnP/libupnp/pthread/LinkedList.c:152-174 | The item is inserted before the node |
| `LinkedList.LinkedList.AddHead` | iUPnP/libupnp/pthread/LinkedList.c:108-116 | The item comes before all others |
| `LinkedList.LinkedList.AddTail` | iUPnP/libupnp/pthread/LinkedList.c:118-126 | The item comes behind all others |
| `LinkedList.LinkedList.DelNode` | iUPnP/libupnp/pthread/LinkedList.c:176-197 | The node is taken out and goes to the free chain, and its item is returned, or given to `free_func` once; a sentinel is not deleted |
| `LinkedList.LinkedList.Destroy` | iUPnP/libupnp/pthread/LinkedList.c:199-216 | List and free chain are empty, and `free_func` was called for each item once and in order, if the caller and the list say so |
| `LinkedList.LinkedList.Find` | iUPnP/libupnp/pthread/LinkedList.c:271-298 | The first match strictly behind the start, or null if and only if there is none |
| `LinkedList.LinkedList.Head` | iUPnP/libupnp/pthread/LinkedList.c:218-229 | The first node, or null for an empty list |
| `LinkedList.LinkedList.Tail` | iUPnP/libupnp/pthread/LinkedList.c:231-242 | The last node, or null for an empty list |
| `LinkedList.LinkedList.Next` | iUPnP/libupnp/pthread/LinkedList.c:244-255 | The node behind, or null for the last one |
| `LinkedList.LinkedList.Prev` | iUPnP/libupnp/pthread/LinkedList.c:257-269 | The node before, or null for the first one |
| `PoolSpec.DiffMillisReverses` | iUPnP/libupnp/pthread/ThreadPool.c:56-73 | A job that was added earlier is never found younger, although the division truncates |
| `PoolSpec.DiffMillisExact` | iUPnP/libupnp/pthread/ThreadPool.c:56-73 | The result is within one millisecond of the exact difference |
| `PoolSpec.BumpMovesCuts` | iUPnP/libupnp/pthread/ThreadPool.c:345-382 | `BumpPriority` leaves the line of jobs as it is and moves its two cuts exactly as far as the ages of the jobs say |
| `PoolSpec.BumpLeavesFresh` | iUPnP/libupnp/pthread/ThreadPool.c:368-379 | If the low queue is in the order of request times, no job left in it has waited for `maxIdleTime`, and the next medium job has not waited for `starvationTime` |
| `ThreadPool.ThreadPool.BumpPriority` | iUPnP/libupnp/pthread/ThreadPool.c:345-382 | The loop ends, since twice the low queue and once the medium queue get shorter, and with the queues of the specification |
| `ThreadPool.ThreadPool.BeginPass` | iUPnP/libupnp/pthread/ThreadPool.c:470-485 | The counters when a worker is idle again |
| `ThreadPool.ThreadPool.CheckForJob` | iUPnP/libupnp/pthread/ThreadPool.c:487-554 | The worker blocks, leaves or takes a job, with the pool as the specification says |
| `ThreadPool.ThreadPool.PickUpJob` | iUPnP/libupnp/pthread/ThreadPool.c:519-554 | The persistent job comes first, then the high, medium and low queue |
| `ThreadPool.ThreadPool.CreateWorker` | iUPnP/libupnp/pthread/ThreadPool.c:617-651 | Whether the caller has to wait, is refused or has created a thread |
| `ThreadPool.ThreadPool.BeginAdd` | iUPnP/libupnp/pthread/ThreadPool.c:805-825 | The job is put at the end of the queue of its priority, or refused exactly when the queues are full |
| `ThreadPool.ThreadPool.RemoveJob` | iUPnP/libupnp/pthread/ThreadPool.c:841-896 | The job with the id is searched for in the three queues in order and then in the persistent slot |
| `ThreadPool.ThreadPool.BeginShutdown` | iUPnP/libupnp/pthread/ThreadPool.c:959-999 | Every waiting job is freed once, in line order with the persistent one last, and the pool is marked as shut down |
| `ThreadPool.ThreadPool.AddWorker` | iUPnP/libupnp/pthread/ThreadPool.c:662-679 | The loop ends only when some worker is free and there are fewer than `jobsPerThread` jobs for each thread, or when no worker can be created; each call of `CreateWorker` is made when one of the two does not hold, and the threads counted are those at the beginning and those created |
| `PoolPersistent.SlotStep` | iUPnP/libupnp/pthread/ThreadPool.c:520-526 | While a persistent job waits, an event leaves it there and starts no job, or takes it out: a worker runs it, or it is removed or dropped |
| `PoolPersistent.PersistentIsNext` | iUPnP/libupnp/pthread/ThreadPool.c:436-438 | Over every run: the first job that any worker takes after a job was put into the persistent slot is that one, whatever waits in the queues, unless it is removed or dropped first |
| `PoolDemand.AddDecides` | iUPnP/libupnp/pthread/ThreadPool.c:671-678 | In every reachable state: at the test of `AddWorker` the client leaves if some worker is free and there are fewer than `jobsPerThread` jobs for each thread; else it waits while a worker is starting, leaves if none can be created, and creates one otherwise |
| `PoolDemand.AddLeavesEnough` | iUPnP/libupnp/pthread/ThreadPool.c:662-679 | Over every run: when a client comes out of `ThreadPoolAdd`, a worker was free and the jobs per thread, as it counted them, were below `jobsPerThread`, or no worker could be created |
| `PoolDemand.CreatedForReason` | iUPnP/libupnp/pthread/ThreadPool.c:671-678 | Over every run: for each worker that a client of `ThreadPoolAdd` creates there was a moment at which one of the two did not hold by its count so far |
| `PoolDemand.AddIsQueued` | iUPnP/libupnp/pthread/ThreadPool.c:805-825 | A job is refused exactly if `maxJobsTotal` jobs are queued; else it goes to the end of the queue of its priority, and no other job moves |
| `PoolDemand.PersistentDecides` | iUPnP/libupnp/pthread/ThreadPool.c:761-772 | Below `maxThreads` workers a persistent job makes `ThreadPoolAddPersistent` create one first, or wait until it can; otherwise the job is refused exactly if one worker is left that runs no persistent job |
| `PoolDemand.IdleWorkerLeaves` | iUPnP/libupnp/pthread/ThreadPool.c:487-508 | In every reachable state a worker that looks for a job leaves exactly if the pool is shut down, or nothing waits, its wait ran out and there are more than `minThreads` workers; it blocks exactly if nothing waits otherwise |
| `PoolIds.IdsCountCalls` | iUPnP/libupnp/pthread/ThreadPool.c:833 | In every reachable state `lastJobId` is the number of accepted jobs, less those whose calls have not come to the end |
| `PoolIds.IdIsNew` | iUPnP/libupnp/pthread/ThreadPool.c:813-833 | A job that is accepted while no such call is open has an id that no job had before |
| `PoolIds.RemovesFirst` | iUPnP/libupnp/pthread/ThreadPool.c:856-890 | A removal takes out the first job with the id in the high, medium and low queue and the slot, in this order, and leaves all others as they are; it finds none only if there is none |
| `PoolThreads.CheckCounts` | iUPnP/libupnp/pthread/ThreadPool.c:488-551 | A worker that holds the mutex blocks only if nothing waits and no shutdown was asked for, leaves only for a shutdown or by the rule for idle workers, and otherwise takes exactly one job; it never gets to the branch marked "Should never get here" |
| `PoolThreads.EventKeeps` | iUPnP/libupnp/pthread/ThreadPool.c:444-679 | Every event of every thread keeps the counters exact (with idle and worker threads), the limits, the wakeup invariant, and that whoever sleeps in `CreateWorker` or `ThreadPoolShutdown` still has to wait |
| `PoolThreads.ThreadsAreAccounted` | iUPnP/libupnp/pthread/ThreadPool.c:617-651 | In every reachable state the counters are the numbers of live, running and persistently running workers; threads running or starting never exceed a finite `maxThreads`; between init and shutdown there are at least `minThreads` |
| `PoolThreads.NoWakeupIsLost` | iUPnP/libupnp/pthread/ThreadPool.c:777-784 | In every reachable state with a blocked worker, the waiting jobs and the persistent one are at most as many as the awake idle workers and the clients that have enqueued but not signalled; and no worker is blocked after a shutdown |
| `PoolThreads.WaitingJobIsSeen` | iUPnP/libupnp/pthread/ThreadPool.c:487-508 | In every reachable state with a waiting job and a blocked worker, another worker is about to look for a job or a client is about to signal |
| `PoolThreads.ShutdownWaitsForWorkers` | iUPnP/libupnp/pthread/ThreadPool.c:1001-1014 | When `ThreadPoolShutdown` has returned, every worker that had started is gone |
| `PoolShutdown.AllGoneIffNonePending` | iUPnP/libupnp/pthread/ThreadPool.c:1001-1014 | When it has returned, all workers are gone if and only if none was being created |
| `PoolShutdown.ReturnsBeforeStart` | iUPnP/libupnp/pthread/ThreadPool.c:636-645 | A reachable state in which one was |
| `PoolJobs.EventStep` | iUPnP/libupnp/pthread/ThreadPool.c:444-996 | Every event does one of six things to the jobs, and the persistent slot has at most one owner |
| `PoolJobs.StepMovesRow` | iUPnP/libupnp/pthread/ThreadPool.c:528-551 | The three queues refine one line: aging leaves it unchanged, adding inserts at a cut, a worker takes the head, a removal takes one job out |
| `PoolJobs.EventKeeps` | iUPnP/libupnp/pthread/ThreadPool.c:805-825 | Every event keeps conservation, order, bound and times of the jobs |
| `PoolJobs.StartsInOrder` | iUPnP/libupnp/pthread/ThreadPool.c:816-825 | In every run, jobs of the same requested priority start in the order in which they were accepted |
| `PoolJobs.HighIsNotOvertaken` | iUPnP/libupnp/pthread/ThreadPool.c:355-381 | In every run, a job that has reached the high queue is taken from the queues before any job accepted later is, unless it is removed or dropped; persistent jobs have a slot of their own and may come first |
| `PoolJobs.EachJobOnce` | iUPnP/libupnp/pthread/ThreadPool.c:530-551 | In every reachable state each accepted job waits, was started, was removed or was dropped: exactly one of them, once |
| `PoolJobs.OnlyAcceptedJobs` | iUPnP/libupnp/pthread/ThreadPool.c:813-825 | Nothing waits in a queue or the slot, is started, removed or dropped that was not accepted |
| `PoolJobs.QueuesAreBounded` | iUPnP/libupnp/pthread/ThreadPool.c:805-809 | In every reachable state the queues together hold at most `maxJobsTotal` jobs |
| `PoolJobs.BumpIsEnough` | iUPnP/libupnp/pthread/ThreadPool.c:514-515 | In every reachable state, after the aging that a worker does no old job is left in the low queue or at the head of the medium queue |
| `PoolPickup.SleepsForNothing` | iUPnP/libupnp/pthread/ThreadPool.c:782-785 | An event leaves a client of `ThreadPoolAddPersistent` asleep with an empty slot if and only if it is a removal of that job by its id or a shutdown, and the client sleeps |
| `PoolPickup.SleepsForNothingInRun` | iUPnP/libupnp/pthread/ThreadPool.c:782-785 | Over every run, nobody sleeps for nothing before the first such event, and somebody does after it |
| `PoolPickup.RemoveLeavesSleeper` | iUPnP/libupnp/pthread/ThreadPool.c:884-890 | A reachable state in which a removal has left a client asleep |
| `PoolPickup.ShutdownLeavesSleeper` | iUPnP/libupnp/pthread/ThreadPool.c:991-1003 | A reachable state in which a shutdown that is over has left a client asleep |
| `PoolShutdown.RunStaysDown` | iUPnP/libupnp/pthread/ThreadPool.c:517-518 | After the drain of a shutdown nothing more is started or dropped, over every run |
| `PoolShutdown.DrainSettles` | iUPnP/libupnp/pthread/ThreadPool.c:959-997 | After the drain, every job accepted before has been started, dropped or removed |
| `PoolShutdown.AcceptedTooLate` | iUPnP/libupnp/pthread/ThreadPool.c:803-825 | A job accepted after the drain is never started or dropped: it waits for ever or is removed |
| `PoolShutdown.SettledIffInTime` | iUPnP/libupnp/pthread/ThreadPool.c:952-1015 | Over every run, a job that nobody removes is started or freed if and only if it was accepted before the drain |
| `PoolShutdown.AcceptedAfterDrain` | iUPnP/libupnp/pthread/ThreadPool.c:803-825 | A reachable state and a `ThreadPoolAdd` that accepts such a late job |
| `GenaDevice.KeyNext` | iUPnP/libupnp/gena/gena_device.c:376-379 | The keys 0, 1, 2, ... with the wrap from the largest int to 1 are one sequence, and 0 is only its first element |
| `GenaDevice.KeysDiffer` | iUPnP/libupnp/gena/gena_device.c:979-984 | Keys in a window shorter than the cycle are different |
| `GenaKeys.KeyTellsTurn` | iUPnP/libupnp/gena/gena_device.c:342 | Comparing keys tells whether it is the turn of a notification, in spite of the wrap |
| `GenaKeys.FirstKey` | iUPnP/libupnp/gena/gena_device.c:512-520 | The initial notification always takes key 0, so that the missing overflow check does no harm |
| `GenaKeys.EventKeeps` | iUPnP/libupnp/gena/gena_device.c:306-385 | Every event of the device keeps the invariant of keys, jobs and exchanges |
| `GenaKeys.KeysAreExact` | iUPnP/libupnp/gena/gena_device.c:964-1001 | Over every interleaving, the jobs under way for a subscription carry exactly the keys from `ToSendEventKey` up to `eventKey`, each once and all different |
| `GenaKeys.SentInTurn` | iUPnP/libupnp/gena/gena_device.c:340-384 | Over every interleaving, the notifications of a subscription are sent one at a time, in order, without gap, repetition or overlap |
| `GenaBuffers.BuffersAreFreedOnce` | iUPnP/libupnp/gena/gena_device.c:140-153 | Over every run, a shared counter is the number of jobs that point at the buffers; they are not freed before and exactly once after the last of them, also if there were none |
| `GenaBuffers.EventKeeps` | iUPnP/libupnp/gena/gena_device.c:306-385 | Every event keeps the counters, over sends, requeues, dropped subscriptions and the shutdown of the pool |
| `GenaFanOut.NotifyAllReachesAll` | iUPnP/libupnp/gena/gena_device.c:961-1015 | Each subscription that is active and unexpired when it is looked at gets one job with its next key, in list order; what has expired leaves the list; the counter is the number of those jobs |
| `GenaDrain.SomeJobIsDue` | iUPnP/libupnp/gena/gena_device.c:340-354 | Some queued job always carries the next key of its subscription, or belongs to none |
| `GenaDrain.ServeAdvances` | iUPnP/libupnp/gena/gena_device.c:340-354 | Each dequeue lowers a measure: a job is done, or the first one that is due comes nearer |
| `GenaDrain.AllAreSent` | iUPnP/libupnp/gena/gena_device.c:306-385 | With one worker and nothing new, N jobs of any subscriptions in any order are done within N(N+1)/2 dequeues, and then all that was issued to a remaining subscription has been sent in order |
| `GenaExpiry.EventKeeps` | iUPnP/libupnp/genlib/service_table/service_table.c:135-151 | A subscription leaves the list in an event exactly if it is cancelled, refused or its device unregistered, or if it is looked up at a time after its `expireTime`, which is not 0 |
| `GenaExpiry.ListedIff` | iUPnP/libupnp/genlib/service_table/service_table.c:157-188 | Over every run: it is off the list later, for good, if and only if one of these happened in between |
| `GenaExpiry.StaysInTime` | iUPnP/libupnp/genlib/service_table/service_table.c:140-141 | Over every run: one that nobody cancels or refuses stays while no reading of the time is after its `expireTime`, and for ever if that is 0 |
| `GenaExpiry.SendsInTime` | iUPnP/libupnp/gena/gena_device.c:323-357 | In every reachable state a notification is sent if its subscription is there, not run out, and it is its turn; it is put back if it is not its turn, and dropped if there is no such subscription |
| `GenaExpiry.InitNotifiesInTime` | iUPnP/libupnp/gena/gena_device.c:463-521 | In every reachable state `genaInitNotify` succeeds exactly if the subscription is there, not run out and not active; then it is active and has its first job |
| `GenaService.Service.GetSubscriptionSID` | iUPnP/libupnp/genlib/service_table/service_table.c:121-154 | The subscription with the SID, which is removed instead if it has expired |
| `GenaService.Service.RemoveSubscriptionSID` | iUPnP/libupnp/genlib/service_table/service_table.c:95-118 | The list without the subscription, the others in order |
| `GenaService.Service.GetNextSubscription` | iUPnP/libupnp/genlib/service_table/service_table.c:157-201 | The next active subscription; what has expired before it is removed, and the rest of a notification to all is unchanged |
| `GenaService.Service.SubscriptionRequest` | iUPnP/libupnp/gena/gena_device.c:1259-1328 | The new subscription is inactive, has both counters at 0 and is first on the list |
| `GenaService.Service.UnregisterDevice` | iUPnP/libupnp/gena/gena_device.c:57-77 | All subscriptions are gone |
| `GenaService.Service.GenaInitNotify` | iUPnP/libupnp/gena/gena_device.c:442-594 | The subscription becomes active and gets its first job, or nothing but the activation happens without variables, or the SID is refused |
| `GenaService.Service.GenaNotifyAll` | iUPnP/libupnp/gena/gena_device.c:888-1024 | The loop does what the specification says, for which the fan-out is proved |
| `GenaService.Service.FreeNotifyStruct` | iUPnP/libupnp/gena/gena_device.c:140-153 | The counter goes down, and the buffers are freed when it gets to 0 |
| `GenaService.Service.NotifyThreadBegin` | iUPnP/libupnp/gena/gena_device.c:323-357 | The job is dropped, put back or begun, as the subscription and the keys say |
| `GenaService.Service.NotifyThreadEnd` | iUPnP/libupnp/gena/gena_device.c:362-384 | The counter of sent keys advances, a refused subscription is removed, and the job is dropped |
| `GenaControlPoint.ControlPoint.GetClientSubActualSID` | iUPnP/libupnp/genlib/client_table/client_table.c:311-325 | The first subscription whose SID begins with the one that is looked for |
| `GenaControlPoint.LookUpIsExact` | iUPnP/libupnp/genlib/client_table/client_table.c:311-325 | The look-up, which compares a prefix, is right about a SID if and only if the SID is on the list or no longer one on the list begins with it |
| `GenaControlPoint.OneLengthIsExact` | iUPnP/libupnp/genlib/client_table/client_table.c:311-325 | With SIDs of one length it is always right |
| `GenaControlPoint.ControlPoint.Insert` | iUPnP/libupnp/gena/gena_ctrlpt.c:559-564 | The subscription comes first, and its SID is known from then on |
| `GenaControlPoint.ControlPoint.RemoveClientSubClientSID` | iUPnP/libupnp/genlib/client_table/client_table.c:265-289 | The first subscription with the SID leaves the list, and the others stay in order |
| `GenaControlPoint.WithoutKeepsOthers` | iUPnP/libupnp/genlib/client_table/client_table.c:265-289 | A removal takes off only subscriptions with the SID, and all of them if SIDs are different |
| `GenaControlPoint.ControlPoint.LookFor` | iUPnP/libupnp/gena/gena_ctrlpt.c:747-788 | 200 if the subscription is known; otherwise a first event waits for the lock once, and all else is answered 412 |
| `GenaEndToEnd.MoveKeeps` | iUPnP/libupnp/gena/gena_ctrlpt.c:529-577 | Every move of device, subscriber and handlers keeps the invariant |
| `GenaEndToEnd.TurnKeeps` | iUPnP/libupnp/gena/gena_ctrlpt.c:747-785 | When a handler answers for a good subscription, that subscription is on the list: key 0 waits for `genaSubscribe`, and a later key comes only after an answer |
| `GenaEndToEnd.LiveIsAnswered` | iUPnP/libupnp/gena/gena_ctrlpt.c:747-788 | In every run, the NOTIFYs of a subscription that is on the list, not cancelled and without a lost NOTIFY arrive in key order from 0, each after the answer to the one before, and every answer is 200 |
| `GenaEndToEnd.RefusedOnlyIfDead` | iUPnP/libupnp/gena/gena_ctrlpt.c:770-784 | In every run, an answer 412 is only for a subscription that was given up or cancelled, or that lost a NOTIFY before it was on the list; a later loss never leads to one |
| `GenaEndToEnd.RefusedIff` | iUPnP/libupnp/gena/gena_ctrlpt.c:747-784 | In every run, a NOTIFY that is being sent for a subscription neither given up nor cancelled is answered 412, if it is looked at now, if and only if the subscription is not on the list yet and the key is not 0; that happens only after an early loss |
| `GenaEndToEnd.LostNotifyIsRefused` | iUPnP/libupnp/gena/gena_ctrlpt.c:780-784 | A run in which the first NOTIFY is lost that early, the next one is refused, and the device drops the subscription, although it is not given up or cancelled |

## Left out

- Sockets, HTTP messages, SSDP, the web server, the miniserver, timers and all Objective-C classes: an exchange is a
  step with a chosen outcome.
- Failure of memory allocation; `ThreadPoolAdd` failing inside GENA, and the error exits of `genaSubscribe` after the
  subscription is on its list.
- PoolSpec.DiffMillisExact: `DiffMillis` adds `double`s, which are exact for differences below 2^53 milliseconds; the
  model adds integers.
- Timed-wait arithmetic, scheduling policy, thread priorities, and the averages of the statistics.
- `ThreadPoolSetAttr`, and two calls of `ThreadPoolAddPersistent` at the same time: there is one persistent slot.
- `jobId` does not identify a job, because `AddWorker` may release the mutex between the reading of `lastJobId` and its
  advance; jobs carry a serial number that C does not have.
- The pool works on job queues that are sequences; that the linked list keeps a sequence is proved in `LinkedList`, and
  the pool is not stacked on those nodes. The same goes for the subscription lists of GENA.
- ThreadPool.ThreadPool.CreateWorker: its two waits are events of `PoolSystem`; in ThreadPool.ThreadPool.AddWorker, which has
  them, the pools that the other threads leave behind are parameters.
- XmlAccepted.AcceptedIffSpelled: is about `Parser_parseDocument`, in strict mode. A name with a prefix is a name like any
  other in it, as in the parser functions; `ixmlParseBuffer` refuses the empty string before it calls the parser.
- GenaService.Service.NotifyThreadBegin: the exits for a handle or a service that is gone are the exit for a
  subscription that is gone, since `genaUnregisterDevice` frees all subscriptions and a service never becomes inactive.
- GenaService.Service.NotifyThreadEnd: the same.
- GenaEndToEnd.LiveIsAnswered: one control point, one delivery URL for each subscription, and SIDs that do not change on
  renewal.
- MemBuf.Buffer.Assign: does not cover an empty assignment to a buffer that was never allocated, for which
  `ixml_membuf_set_size` allocates nothing and the code writes through a null pointer.
- ParserLoops.XmlParser.ReadDigits: where the digits of a reference reach the end of the string, C does not notice it,
  because `strchr` finds the NUL too, and reads on behind it; the model fails there. A sum that overflows is taken to
  wrap.
- ParserLoops.XmlParser.ProcessCData: where the code would step past the terminating NUL, the model fails.
- ParserLoops.XmlParser.ProcessSTag: names with a prefix; so for ParserLoops.XmlParser.ProcessAttribute,
  ParserLoops.XmlParser.GetNextNode, ParserLoops.XmlParser.ParseLoop and ParserLoops.XmlParser.ParseDocument: namespaces,
  prefixes and `pNeedPrefixNode` are not modelled, and neither is relaxed mode (`g_error_char`).
- ParserLoops.XmlParser.ProcessElementName: the tree under construction is a value with its open elements beside it; an
  element becomes a child of its parent when it is closed, and the pointers between nodes are not modelled.
- Printer.PrintNodesTo: processing instruction nodes, which no function of the library creates.
- The tables behind `Parser_isNameChar` are parameters; the model relies on them to hold XML characters and no markup.
- Reading a file, the byte order mark, and the `ixml*toString` variants of the printer.
- The SUBSCRIBE renewal and the auto-renew timer of the control point.
