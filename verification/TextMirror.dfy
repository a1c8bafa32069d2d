/** An agent that sees only the printed bodies of responses: when the tree it can build
    from them is the daemon's baseline with double quotes softened, over every run. */
module TextMirror {

  import opened Results
  import opened Text
  import opened Trees
  import opened Deltas
  import opened PageStates
  import opened MirrorSync
  import Law = DeltaLaw
  import Codec = TreeCodec
  import Round = TreeRoundTrip
  import Wire = DeltaWire
  import DeltaRound = DeltaRoundTrip
  import Breaks = LineBreaks
  import DeltaBreaks
  import Soft = SoftPatches
  import opened Codes
  import Tokens
  import opened Envelopes
  import Client = Clients
  import Framing = ResponseFraming

  // ------------------------------------------------------------- bodies

  function BodyLines(form: ViewForm): seq<string>
  {
    match form
    case Full(t) => Codec.ForestLines(t.roots, 0)
    case Delta(ops) => Wire.DeltaLines(ops)
    case NoChange => []
  }

  /** The body a view, an act or a cursor operation answers with. */
  function Body(form: ViewForm): string { Unlines(BodyLines(form)) }

  method EncodeBody(form: ViewForm) returns (body: string)
    ensures body == Body(form)
  {
    match form {
      case Full(tree) => body := Codec.EncodeTree(tree);
      case Delta(ops) => body := Wire.EncodeStream(ops);
      case NoChange => body := "";
    }
  }

  predicate IsSigil(c: char) { c in "+-~>*" }

  /** The tree an agent makes of a body: nothing changed, a patch or a whole tree,
      told apart by the first character alone. */
  function ReadBody(mirror: Option<Tree>, body: string): Option<Tree>
  {
    if body == "" then mirror
    else if IsSigil(body[0]) then
      match Wire.ParseDelta(body)
      case Err(_) => None
      case Ok(ops) => Received(mirror, Delta(ops))
    else
      match Codec.Parse(body)
      case Err(_) => None
      case Ok(t) => Some(t)
  }

  function SoftTree(t: Tree): Tree { Tree(Round.Sanitized(t.roots)) }

  lemma FirstOfUnlines(lines: seq<string>)
    requires lines != [] && lines[0] != []
    ensures Unlines(lines) != "" && Unlines(lines)[0] == lines[0][0]
  {
  }

  /** A printed tree starts with a digit. */
  lemma FullBody(t: Tree)
    ensures t.roots == [] ==> Body(Full(t)) == ""
    ensures t.roots != [] ==> Body(Full(t)) != "" && !IsSigil(Body(Full(t))[0])
  {
    hide Unlines, Codec.NodeTokens, Codec.NodeLine;
    if t.roots == [] {
      EmptyBody();
    } else {
      FirstOfNode(t.roots[0]);
      FirstOfUnlines(Codec.ForestLines(t.roots, 0));
    }
  }

  lemma EmptyBody()
    ensures Unlines([]) == ""
  {
  }

  lemma FirstOfNode(n: Node)
    ensures var line := Codec.NodeLine(n, 0); line != [] && IsDigit(line[0])
  {
    assert Codec.NodeTokens(n)[0] == Decimal(n.r);
  }

  /** A printed delta starts with a sigil. */
  lemma DeltaBody(ops: seq<DeltaOp>)
    requires ops != []
    ensures Body(Delta(ops)) != "" && IsSigil(Body(Delta(ops))[0])
  {
    hide Unlines, Wire.OpLines;
    FirstOfOp(ops[0]);
    assert Wire.DeltaLines(ops)[0] == Wire.OpLines(ops[0])[0];
    FirstOfUnlines(Wire.DeltaLines(ops));
  }

  lemma FirstOfOp(op: DeltaOp)
    ensures var lines := Wire.OpLines(op); lines != [] && lines[0] != [] && IsSigil(lines[0][0])
  {
  }

  /** No tree that an agent has read holds a line break. */
  predicate ReadMirror(mirror: Option<Tree>) { mirror.Some? ==> Round.UnbrokenForest(mirror.value.roots) }

  lemma ReadUnbroken(mirror: Option<Tree>, body: string)
    requires ReadMirror(mirror)
    ensures ReadMirror(ReadBody(mirror, body))
  {
    hide Round.UnbrokenForest, Wire.ParseDelta, Codec.Parse, ApplyAll, DeltaBreaks.UnbrokenOps;
    if body != "" && IsSigil(body[0]) {
      if Wire.ParseDelta(body).Ok? {
        DeltaBreaks.ParsedOpsUnbroken(body);
        var ops := Wire.ParseDelta(body).value;
        if mirror.Some? && ApplyAll(ROOT, mirror.value.roots, ops).Ok? {
          DeltaBreaks.ApplyUnbroken(ROOT, mirror.value.roots, ops);
        }
      }
    } else if Codec.Parse(body).Ok? {
      Breaks.ParsedUnbroken(body);
    }
  }

  /** So an agent never holds a page whose texts break. */
  lemma NeverBroken(mirror: Option<Tree>, body: string, t: Tree)
    requires ReadMirror(mirror) && ReadBody(mirror, body) == Some(SoftTree(t))
    ensures Round.UnbrokenForest(t.roots)
  {
    hide ReadBody, Round.UnbrokenForest, Round.Sanitized;
    ReadUnbroken(mirror, body);
    Breaks.SoftUnbroken(t.roots);
  }

  /** Reading a printed tree. */
  lemma ReadFull(mirror: Option<Tree>, t: Tree)
    requires Round.WellKeyed(t.roots)
    ensures ReadBody(mirror, Body(Full(t))) == Some(SoftTree(t))
            <==> if t.roots == [] then mirror == Some(t) else Round.UnbrokenForest(t.roots) && Round.WholeEnds(t.roots)
  {
    hide Codec.Parse, Round.Sanitized, Round.UnbrokenForest, Round.WholeEnds, Round.WellKeyed, Unlines,
         Codec.ForestLines;
    FullBody(t);
    EmptySoft(t);
    Breaks.TreeReadsBack(t);
    assert Body(Full(t)) == Codec.Encode(t);
  }

  /** Reading a printed delta is receiving its softened operations. */
  lemma ReadDelta(mirror: Option<Tree>, ops: seq<DeltaOp>)
    requires Soft.Printable(ops) && ops != []
    ensures ReadBody(mirror, Body(Delta(ops))) == Received(mirror, Delta(DeltaRound.SanitizedOps(ops)))
  {
    hide Wire.ParseDelta, DeltaRound.CleanOps, DeltaRound.NoEmptyReplace, DeltaRound.SanitizedOps, Unlines,
         Wire.DeltaLines, Received;
    DeltaBody(ops);
    DeltaRound.DeltaRoundTrip(ops);
    assert Body(Delta(ops)) == Wire.EncodeDelta(ops);
  }

  // -------------------------------------------------------------- the runs

  /** `w.mirror` is what the agent made of the bodies so far. */
  ghost function TextStep(w: World, e: Event): World
  {
    match e
    case Snapshot(t) => World(Applied(w.page, t), ReadBody(w.mirror, Body(FormFor(w.page, t))))
    case View(t, full) =>
      var p := if full then Invalidated(w.page) else w.page;
      World(Applied(p, t), ReadBody(w.mirror, Body(FormFor(p, t))))
    case _ => Step(w, e)
  }

  ghost function TextRun(w: World, events: seq<Event>): World
    decreases |events|
  {
    if events == [] then w else TextRun(TextStep(w, events[0]), events[1..])
  }

  /** The next view is full anyway, or the agent holds the baseline as printed. */
  predicate TextInSync(w: World)
  {
    w.page.forceFull || (w.page.lastTree.Some? && w.mirror == Some(SoftTree(w.page.lastTree.value)))
  }

  /** Clean attribute keys; and where a patch is sent, no line of the page ends in a
      carriage return, as none does that starts from trimmed labels. */
  predicate Tidy(p: Page, t: Tree)
  {
    Round.WellKeyed(t.roots) && (FormFor(p, t).Delta? ==> Round.WholeEnds(t.roots))
  }

  predicate TidyEvent(p: Page, e: Event)
  {
    match e
    case Snapshot(t) => Tidy(p, t)
    case View(t, full) => Tidy(if full then Invalidated(p) else p, t)
    case _ => true
  }

  /** What has to hold for the agent to read the new baseline off the body: no text breaks
      the line; a whole tree must not be empty unless the agent's is, nor may a line of it
      end in a carriage return; and a patch must land. */
  ghost predicate TextLands(p: Page, mirror: Option<Tree>, t: Tree)
  {
    if Unchanged(p, t) then true
    else if p.lastTree.None? || p.forceFull then
      if t.roots == [] then mirror == Some(t) else Round.UnbrokenForest(t.roots) && Round.WholeEnds(t.roots)
    else Round.UnbrokenForest(t.roots) && Law.Lands(p.lastTree.value.roots, t.roots)
  }

  ghost predicate TextKeeps(w: World, e: Event)
  {
    match e
    case Snapshot(t) => TextLands(w.page, w.mirror, t)
    case View(t, full) => TextLands(if full then Invalidated(w.page) else w.page, w.mirror, t)
    case Wait(t) => Unchanged(w.page, t) || w.mirror == Some(SoftTree(t))
    case Invalidate => true
    case Resize(_) => true
    case Navigate(_, _) => true
    case Refused => true
  }

  lemma {:induction false} DistinctAtEveryLevel(f: seq<Node>)
    requires Distinct(f)
    ensures Law.DistinctSiblings(f)
    decreases f
  {
    hide Distinct;
    forall i, j | 0 <= i < j < |f| ensures f[i].r != f[j].r { DistinctPair(f, i, j); }
    forall i | 0 <= i < |f| ensures Law.DistinctSiblings(f[i].children) {
      DistinctMember(f, i);
      DistinctAtEveryLevel(f[i].children);
    }
  }

  /** The daemon never sends an empty patch: what did not change is never compared. */
  lemma DeltaNeverEmpty(p: Page, t: Tree)
    requires TokenMatches(p) && GoodPage(p) && Law.WellFormed(t)
    requires FormFor(p, t).Delta?
    ensures FormFor(p, t).ops != []
  {
    hide Compute, ChildrenOps, Distinct, Refs, Law.DistinctSiblings;
    var a := p.lastTree.value;
    DistinctAtEveryLevel(a.roots);
    DistinctAtEveryLevel(t.roots);
    Law.EmptyDeltaIffSame(a.roots, t.roots, ROOT);
    assert a.roots == t.roots ==> a == t;
  }

  lemma TreePrintable(a: Tree, b: Tree)
    requires Round.Clean(b.roots)
    ensures Soft.Printable(DiffOps(a, b))
  {
    hide ChildrenOps, Soft.Printable;
    Soft.DiffPrintable(a.roots, b.roots, ROOT);
  }

  lemma CleanPatchRead(p: Page, t: Tree)
    requires TokenMatches(p) && GoodPage(p) && Law.WellFormed(t) && Round.Clean(t.roots)
    requires FormFor(p, t).Delta?
    ensures ReadBody(Some(SoftTree(p.lastTree.value)), Body(FormFor(p, t))) == Some(SoftTree(t))
            <==> Law.Lands(p.lastTree.value.roots, t.roots)
  {
    DeltaNeverEmpty(p, t);
    var a := p.lastTree.value;
    assert FormFor(p, t) == Delta(DiffOps(a, t));
    hide Compute, FormFor, Unchanged, DiffOps, ChildrenOps, Law.Lands, Law.WellFormed, Round.Sanitized, Round.Clean,
         Body,
         ReadBody, Soft.Printable, DeltaRound.SanitizedOps, ApplyAll;
    TreePrintable(a, t);
    ReadDelta(Some(SoftTree(a)), DiffOps(a, t));
    Soft.SoftDeltaIsExact(a, t);
  }

  lemma PatchRead(p: Page, t: Tree)
    requires TokenMatches(p) && GoodPage(p) && Law.WellFormed(t) && Tidy(p, t)
    requires FormFor(p, t).Delta? && ReadMirror(Some(SoftTree(p.lastTree.value)))
    ensures ReadBody(Some(SoftTree(p.lastTree.value)), Body(FormFor(p, t))) == Some(SoftTree(t))
            <==> Round.UnbrokenForest(t.roots) && Law.Lands(p.lastTree.value.roots, t.roots)
  {
    var mirror, body := Some(SoftTree(p.lastTree.value)), Body(FormFor(p, t));
    assert Round.UnbrokenForest(t.roots) ==> Round.Clean(t.roots);
    hide Compute, FormFor, Law.Lands, Law.WellFormed, Body, ReadBody, SoftTree, ReadMirror, Round.UnbrokenForest,
         Round.Clean;
    if Round.UnbrokenForest(t.roots) {
      CleanPatchRead(p, t);
    } else if ReadBody(mirror, body) == Some(SoftTree(t)) {
      NeverBroken(mirror, body, t);
    }
  }

  /** A sent body keeps the agent in step exactly when it lands. */
  lemma TextSendExact(p: Page, mirror: Option<Tree>, t: Tree)
    requires TokenMatches(p) && GoodPage(p) && Law.WellFormed(t) && Tidy(p, t)
    requires TextInSync(World(p, mirror)) && ReadMirror(mirror)
    ensures TextInSync(World(Applied(p, t), ReadBody(mirror, Body(FormFor(p, t))))) <==> TextLands(p, mirror, t)
  {
    hide Compute, DiffOps, Law.Lands, Law.WellFormed, Body, ReadBody, SoftTree, ReadMirror,
         Round.UnbrokenForest, Round.WholeEnds, Round.WellKeyed;
    if Unchanged(p, t) {
      NothingRead(mirror);
    } else if p.lastTree.None? || p.forceFull {
      ReadFull(mirror, t);
    } else {
      PatchRead(p, t);
    }
  }

  lemma NothingRead(mirror: Option<Tree>)
    ensures ReadBody(mirror, Body(NoChange)) == mirror
  {
  }

  lemma EmptySoft(t: Tree)
    ensures t.roots == [] ==> SoftTree(t) == t
  {
  }

  /** One step keeps the agent in step exactly when it meets its condition. */
  lemma TextStepExact(w: World, e: Event)
    requires TokenMatches(w.page) && GoodPage(w.page) && ReadMirror(w.mirror) && TextInSync(w)
    requires Admissible(e) && TidyEvent(w.page, e)
    ensures TextInSync(TextStep(w, e)) <==> TextKeeps(w, e)
  {
    hide Compute, Law.Lands, Law.WellFormed, Body, ReadBody, SoftTree, FormFor, TextLands, Tidy, ReadMirror;
    match e {
      case Snapshot(t) => TextSendExact(w.page, w.mirror, t);
      case View(t, full) => TextSendExact(if full then Invalidated(w.page) else w.page, w.mirror, t);
      case _ =>
    }
  }

  lemma MirrorKept(w: World, e: Event)
    requires ReadMirror(w.mirror)
    ensures ReadMirror(TextStep(w, e).mirror) && TextStep(w, e).page == Step(w, e).page
  {
    hide Compute, ReadMirror, ReadBody, Body, Received, FormFor;
    match e {
      case Snapshot(t) => ReadUnbroken(w.mirror, Body(FormFor(w.page, t)));
      case View(t, full) => ReadUnbroken(w.mirror, Body(FormFor(if full then Invalidated(w.page) else w.page, t)));
      case _ =>
    }
  }

  ghost predicate TextKeepsAll(w: World, events: seq<Event>)
    decreases |events|
  {
    events == [] || (
      && Admissible(events[0]) && TidyEvent(w.page, events[0]) && TextKeeps(w, events[0])
      && TextKeepsAll(TextStep(w, events[0]), events[1..]))
  }

  ghost predicate TextConsistent(w: World)
  {
    TokenMatches(w.page) && GoodPage(w.page) && ReadMirror(w.mirror) && TextInSync(w)
  }

  /** TEXT MIRROR. Over every run the agent holds the baseline as printed, or the next
      view is full. */
  lemma {:induction false} TextRunStaysInSync(w: World, events: seq<Event>)
    requires TextConsistent(w) && TextKeepsAll(w, events)
    ensures TextConsistent(TextRun(w, events))
    decreases |events|
  {
    hide Step, TextStep, TextKeeps, Admissible, TidyEvent, TokenMatches, GoodPage, ReadMirror, TextInSync;
    if events != [] {
      TokenKept(w, events[0]);
      GoodKept(w, events[0]);
      MirrorKept(w, events[0]);
      TextStepExact(w, events[0]);
      TextRunStaysInSync(TextStep(w, events[0]), events[1..]);
    }
  }

  /** A page starts out consistent, so every run of it stays in sync, whatever its agent
      had read before. */
  lemma EveryTextRunStaysInSync(id: string, url: string, t: Tree, mirror: Option<Tree>, dormant: bool,
                                events: seq<Event>)
    requires Law.WellFormed(t) && ReadMirror(mirror)
    requires TextKeepsAll(World(if dormant then Dormant(id, url) else Shown(id, url, t), mirror), events)
    ensures TextConsistent(TextRun(World(if dormant then Dormant(id, url) else Shown(id, url, t), mirror), events))
  {
    hide Compute, Law.WellFormed, TextKeepsAll, TextRun, ReadMirror;
    TextRunStaysInSync(World(if dormant then Dormant(id, url) else Shown(id, url, t), mirror), events);
  }

  /** An empty page asked for in full reads as "nothing changed": the agent keeps
      whatever tree it had. */
  lemma EmptyPageLooksUnchanged(mirror: Option<Tree>, t: Tree)
    requires t.roots == []
    ensures Body(Full(t)) == Body(NoChange) && ReadBody(mirror, Body(Full(t))) == mirror
  {
    FullBody(t);
    NothingRead(mirror);
  }

  // -------------------------------------------------------------- the wire

  lemma {:induction false} ForestLinesFilled(f: seq<Node>, depth: nat)
    ensures forall i :: 0 <= i < |Codec.ForestLines(f, depth)| ==> Codec.ForestLines(f, depth)[i] != []
    decreases f
  {
    hide Codec.NodeLine;
    if f != [] {
      var head, below, after := Codec.NodeLine(f[0], depth), Codec.ForestLines(f[0].children, depth + 1),
                                Codec.ForestLines(f[1..], depth);
      NodeLineFilled(f[0], depth);
      ForestLinesFilled(f[0].children, depth + 1);
      ForestLinesFilled(f[1..], depth);
      assert Codec.ForestLines(f, depth) == [head] + below + after;
    }
  }

  lemma NodeLineFilled(n: Node, depth: nat)
    ensures Codec.NodeLine(n, depth) != []
  {
    assert Codec.NodeTokens(n)[0] == Decimal(n.r);
  }

  lemma {:induction false} DeltaLinesFilled(ops: seq<DeltaOp>)
    ensures forall i :: 0 <= i < |Wire.DeltaLines(ops)| ==> Wire.DeltaLines(ops)[i] != []
    decreases |ops|
  {
    if ops != [] {
      FirstOfOp(ops[0]);
      if ops[0].Replace? { ForestLinesFilled(ops[0].subtree, 1); }
      DeltaLinesFilled(ops[1..]);
    }
  }

  /** Every clean body is framed line by line. */
  lemma BodyFramed(form: ViewForm)
    requires form.Full? ==> Round.Clean(form.tree.roots)
    requires form.Delta? ==> Soft.Printable(form.ops)
    ensures forall i :: 0 <= i < |BodyLines(form)| ==> BodyLines(form)[i] != [] && WholeLine(BodyLines(form)[i])
  {
    hide WholeLine, Round.Clean, Codec.ForestLines, Wire.DeltaLines, DeltaRound.CleanOps;
    match form {
      case Full(t) =>
        Round.ForestWhole(t.roots, 0);
        ForestLinesFilled(t.roots, 0);
      case Delta(ops) =>
        DeltaRound.DeltaWhole(ops);
        DeltaLinesFilled(ops);
      case NoChange =>
    }
  }

  lemma {:induction false} UnlinesTerminated(lines: seq<string>)
    ensures Framing.Terminated(Unlines(lines))
    decreases |lines|
  {
    if lines != [] { UnlinesTerminated(lines[1..]); }
  }

  lemma {:induction false} NoneBlank(lines: seq<string>)
    requires [] !in lines
    ensures Framing.BeforeBlank(lines) == lines
    decreases |lines|
  {
    if lines != [] {
      assert lines[0] in lines;
      NoneBlank(lines[1..]);
    }
  }

  /** A clean body reaches the client as it was written. */
  lemma CleanBodyArrives(form: ViewForm)
    requires form.Full? ==> Round.Clean(form.tree.roots)
    requires form.Delta? ==> Soft.Printable(form.ops)
    ensures [] !in Lines(Body(form)) && Unlines(Framing.BeforeBlank(Lines(Body(form)))) == Body(form)
  {
    hide BodyLines, Unlines, Lines, WholeLine, Round.Clean, Soft.Printable;
    BodyFramed(form);
    LinesOfUnlines(BodyLines(form));
    NoneBlank(BodyLines(form));
  }

  /** The reply of a view, an act or a cursor operation; a line break follows it. */
  function Reply(warnings: seq<Warning>, token: StateToken, form: ViewForm): string
  {
    EncodeHead(ResponseHead(warnings, Success(token))) + (Body(form) + ['\n'])
  }

  /** The whole way: whatever the page's texts, the client reads the token of a reply that
      carries a snapshot; it leaves exactly what follows if and only if the body has no
      empty line; and the body it has read puts the agent in step if and only if it lands,
      which no body with an empty line does. */
  lemma WireDelivers(warnings: seq<Warning>, token: StateToken, p: Page, mirror: Option<Tree>, t: Tree, more: string)
    requires Framing.OneLineHead(ResponseHead(warnings, Success(token)))
    requires TokenMatches(p) && GoodPage(p) && Law.WellFormed(t) && Round.WellKeyed(t.roots) && Round.WholeEnds(t.roots)
    requires TextInSync(World(p, mirror)) && ReadMirror(mirror)
    ensures var (result, rest) := Client.ReadFrom(Reply(warnings, token, FormFor(p, t)) + more, Client.NOTHING_YET);
            && result.Ok? && result.value.envelope == Success(token)
            && (rest == more <==> [] !in Lines(Body(FormFor(p, t))))
            && (TextInSync(World(Applied(p, t), ReadBody(mirror, Unlines(result.value.body))))
                <==> TextLands(p, mirror, t))
            && (TextLands(p, mirror, t) ==> rest == more)
  {
    var form, head := FormFor(p, t), ResponseHead(warnings, Success(token));
    var body := Body(form);
    hide *;
    ReplyText(warnings, token, form, more);
    UnlinesTerminated(BodyLines(form));
    BodyIs(form);
    Framing.AnyBodyRead(head, body, more);
    SuccessRecovered(token);
    BodyLands(p, mirror, t);
  }

  lemma BodyIs(form: ViewForm)
    ensures Body(form) == Unlines(BodyLines(form))
  {
  }

  lemma SuccessRecovered(token: StateToken)
    ensures Framing.RecoveredEnvelope(Success(token)) == Success(token)
  {
  }

  lemma ReplyText(warnings: seq<Warning>, token: StateToken, form: ViewForm, more: string)
    ensures Reply(warnings, token, form) + more
            == EncodeHead(ResponseHead(warnings, Success(token))) + (Body(form) + ['\n'] + more)
  {
    hide EncodeHead, Body;
    var head, body := EncodeHead(ResponseHead(warnings, Success(token))), Body(form) + ['\n'];
    assert (head + body) + more == head + (body + more);
  }

  /** What the body, cut at its first empty line, does to the agent. */
  lemma BodyLands(p: Page, mirror: Option<Tree>, t: Tree)
    requires TokenMatches(p) && GoodPage(p) && Law.WellFormed(t) && Round.WellKeyed(t.roots) && Round.WholeEnds(t.roots)
    requires TextInSync(World(p, mirror)) && ReadMirror(mirror)
    ensures var lines := Lines(Body(FormFor(p, t)));
            && (TextInSync(World(Applied(p, t), ReadBody(mirror, Unlines(Framing.BeforeBlank(lines)))))
                <==> TextLands(p, mirror, t))
            && (TextLands(p, mirror, t) ==> [] !in lines)
  {
    var form := FormFor(p, t);
    assert Tidy(p, t) && (Round.UnbrokenForest(t.roots) ==> Round.Clean(t.roots));
    if form.NoChange? || Round.UnbrokenForest(t.roots) {
      FormPrintable(p, t);
      CleanBodyArrives(form);
      TextSendExact(p, mirror, t);
    } else {
      BrokenNeverLands(p, mirror, t, Unlines(Framing.BeforeBlank(Lines(Body(form)))));
    }
    hide Compute, DiffOps, Law.Lands, Law.WellFormed, ReadBody, SoftTree, Body, Unlines, Lines, Framing.BeforeBlank,
         Round.UnbrokenForest, Round.WholeEnds, Round.WellKeyed, FormFor, Soft.Printable, TextLands, TextInSync;
  }

  lemma BrokenNeverLands(p: Page, mirror: Option<Tree>, t: Tree, body: string)
    requires TokenMatches(p) && ReadMirror(mirror) && !Unchanged(p, t) && !Round.UnbrokenForest(t.roots)
    ensures !TextInSync(World(Applied(p, t), ReadBody(mirror, body))) && !TextLands(p, mirror, t)
  {
    hide Compute, ReadBody, SoftTree, ReadMirror;
    if ReadBody(mirror, body) == Some(SoftTree(t)) { NeverBroken(mirror, body, t); }
  }

  lemma FormPrintable(p: Page, t: Tree)
    ensures var form := FormFor(p, t);
            && (form.Full? && Round.Clean(t.roots) ==> Round.Clean(form.tree.roots))
            && (form.Delta? && Round.Clean(t.roots) ==> Soft.Printable(form.ops))
  {
    hide Compute, DiffOps, Round.Clean, Soft.Printable;
    if FormFor(p, t).Delta? && Round.Clean(t.roots) { TreePrintable(p.lastTree.value, t); }
  }

  // ------------------------------------------------------------- a witness

  /** A text area with an empty line in it: the reply is cut short, what is left of it
      stays on the connection, and the next reply cannot be read. */
  lemma BrokenLabelCutsReply(warnings: seq<Warning>, token: StateToken, t: Tree, more: string)
    requires Framing.OneLineHead(ResponseHead(warnings, Success(token)))
    requires t == Tree([Node(1, Ta, "a\n\nb", {}, [], [])])
    ensures Law.WellFormed(t) && Round.WellKeyed(t.roots) && Round.WholeEnds(t.roots)
    ensures var (result, rest) := Client.ReadFrom(Reply(warnings, token, Full(t)) + more, Client.NOTHING_YET);
            && result.Ok? && result.value.body == ["1 ta a"]
            && rest == "b\n" + ['\n'] + more
            && Client.ReadFrom(rest, Client.NOTHING_YET) == (Err(Client.UnexpectedLine("b")), ['\n'] + more)
  {
    hide *;
    AreaIsTidy(t);
    AreaText(t);
    AreaLines();
    CutReply(warnings, token, Full(t), "1 ta a", "b\n", more);
    LeftOver(more);
  }

  lemma CutReply(warnings: seq<Warning>, token: StateToken, form: ViewForm, first: string, left: string, more: string)
    requires Framing.OneLineHead(ResponseHead(warnings, Success(token)))
    requires Framing.BeforeBlank(Lines(Body(form))) == [first] && Framing.AfterBlank(Body(form)) == Some(left)
    ensures var (result, rest) := Client.ReadFrom(Reply(warnings, token, form) + more, Client.NOTHING_YET);
            && result.Ok? && result.value.body == [first]
            && rest == left + ['\n'] + more
  {
    hide *;
    ReplyText(warnings, token, form, more);
    BodyIs(form);
    UnlinesTerminated(BodyLines(form));
    Framing.AnyBodyRead(ResponseHead(warnings, Success(token)), Body(form), more);
  }

  lemma AreaIsTidy(t: Tree)
    requires t == Tree([Node(1, Ta, "a\n\nb", {}, [], [])])
    ensures Law.WellFormed(t) && Round.WellKeyed(t.roots) && Round.WholeEnds(t.roots)
  {
    DistinctOne(t.roots[0]);
    RefsOfOne(t.roots[0]);
    assert t.roots[1..] == [];
  }

  lemma AreaText(t: Tree)
    requires t == Tree([Node(1, Ta, "a\n\nb", {}, [], [])])
    ensures Body(Full(t)) == "1 ta a\n\nb\n"
  {
    var n := t.roots[0];
    assert t.roots[1..] == [] && Codec.ForestLines(t.roots, 0) == [Codec.NodeLine(n, 0)];
    assert Codec.NodeTokens(n) == ["1", "ta", "a\n\nb"] by { AreaTokens(n); }
    Codec.NodeLineIs(n, 0);
    AreaLine();
    assert [Codec.NodeLine(n, 0)][1..] == [];
  }

  lemma AreaTokens(n: Node)
    requires n == Node(1, Ta, "a\n\nb", {}, [], [])
    ensures Codec.NodeTokens(n) == ["1", "ta", "a\n\nb"]
  {
    assert Decimal(1) == "1";
    var s := "a\n\nb";
    Tokens.CleanedFixed(s);
    assert Tokens.QuoteLabel(s) == s;
    var head := [Decimal(n.r), RoleCode(n.role), Tokens.QuoteLabel(n.labelText)];
    Round.NodeTokensSplit(n);
    assert head + ([] + []) == ["1", "ta", s];
  }

  lemma AreaLine()
    ensures Tokens.Spaces(0) + Tokens.Line(["1", "ta", "a\n\nb"]) == "1 ta a\n\nb"
  {
    var rest := ["1", "ta", "a\n\nb"][1..];
    assert rest == ["ta", "a\n\nb"] && rest[1..] == ["a\n\nb"] && rest[1..][1..] == [];
  }

  lemma AreaLines()
    ensures var s := "1 ta a\n\nb\n";
            Framing.BeforeBlank(Lines(s)) == ["1 ta a"] && Framing.AfterBlank(s) == Some("b\n")
  {
    CutText("1 ta a", "b\n");
    assert "1 ta a" + ['\n'] + (['\n'] + "b\n") == "1 ta a\n\nb\n";
  }

  lemma CutText(first: string, left: string)
    requires first != [] && OneLine(first)
    ensures var s := first + ['\n'] + (['\n'] + left);
            Framing.BeforeBlank(Lines(s)) == [first] && Framing.AfterBlank(s) == Some(left)
  {
    var s, rest := first + ['\n'] + (['\n'] + left), ['\n'] + left;
    IndexOfAfter(first, '\n', rest);
    assert s[..|first|] == first && s[|first|+1..] == rest;
    OneLineWhole(first);
    assert [] + ['\n'] + left == rest;
    IndexOfAfter([], '\n', left);
    assert rest[1..] == left;
  }

  lemma LeftOver(more: string)
    ensures Client.ReadFrom("b\n" + ['\n'] + more, Client.NOTHING_YET)
            == (Err(Client.UnexpectedLine("b")), ['\n'] + more)
  {
    var rest := ['\n'] + more;
    assert "b\n" + ['\n'] + more == "b" + ['\n'] + rest;
    Framing.ReadOne("b", rest);
  }
}
