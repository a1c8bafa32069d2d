/** What the tree format promises: printing and parsing are inverse up to the
    replacement of double quotes, the stack rebuilds exactly the nesting the
    depths describe, and the state token's pre-image determines the page. */
module TreeRoundTrip {

  import opened Results
  import opened SortedMaps
  import opened Text
  import opened Tokens
  import opened Trees
  import opened Codes
  import opened TreeCodec

  // ----------------------------------------------------------- assembly

  function ShellOf(n: Node): Shell { Shell(n.r, n.role, n.labelText, n.ops, n.attrs) }

  /** The pre-order listing with depths: what the printed lines carry. */
  function Listing(f: seq<Node>, depth: nat): seq<(nat, Shell)>
  {
    if f == [] then []
    else [(depth, ShellOf(f[0]))] + Listing(f[0].children, depth + 1) + Listing(f[1..], depth)
  }

  /** The innermost open node, or the root level, receives the whole forest. */
  function Attach(s: Stack, f: seq<Node>): Stack
  {
    if s.open == [] then Stack(s.roots + f, [])
    else
      var k := |s.open| - 1;
      var n := s.open[k].1;
      Stack(s.roots, s.open[..k] + [(s.open[k].0, n.(children := n.children + f))])
  }

  predicate Above(s: Stack, depth: nat) { s.open == [] || s.open[|s.open|-1].0 < depth }

  lemma {:induction false} CloseTwice(s: Stack, inner: nat, outer: nat)
    requires outer <= inner
    ensures Close(Close(s, inner), outer) == Close(s, outer)
    decreases |s.open|
  {
    if s.open != [] && s.open[|s.open|-1].0 >= inner {
      CloseTwice(Pop(s), inner, outer);
    }
  }

  lemma {:induction false} FeedConcat(s: Stack, p: seq<(nat, Shell)>, q: seq<(nat, Shell)>)
    ensures Feed(s, p + q) == Feed(Feed(s, p), q)
    decreases |p|
  {
    if p == [] {
      assert p + q == q;
    } else {
      assert (p + q)[1..] == p[1..] + q;
      FeedConcat(Push(Close(s, p[0].0), p[0].0, NodeOf(p[0].1)), p[1..], q);
    }
  }

  /** Closing first changes nothing for a forest listed at that depth. */
  lemma FeedAfterClose(s: Stack, f: seq<Node>, depth: nat)
    ensures Close(Feed(s, Listing(f, depth)), depth) == Close(Feed(Close(s, depth), Listing(f, depth)), depth)
  {
    CloseTwice(s, depth, depth);
  }

  lemma AttachOne(s: Stack, n: Node, depth: nat)
    requires Above(s, depth)
    ensures Close(Attach(Push(s, depth, n.(children := [])), n.children), depth) == Attach(s, [n])
  {
    var t := Attach(Push(s, depth, n.(children := [])), n.children);
    assert n.(children := [] + n.children) == n;
    assert t == Stack(s.roots, s.open + [(depth, n)]);
    assert Pop(t) == Attach(s, [n]) by {
      if s.open != [] {
        var k := |s.open| - 1;
        assert t.open[..k] == s.open[..k] && t.open[k] == s.open[k];
      }
    }
    assert Above(Attach(s, [n]), depth);
  }

  lemma AttachMore(s: Stack, n: Node, rest: seq<Node>)
    ensures Attach(Attach(s, [n]), rest) == Attach(s, [n] + rest)
  {
    if s.open == [] {
      assert (s.roots + [n]) + rest == s.roots + ([n] + rest);
    } else {
      var k := |s.open| - 1;
      var c := s.open[k].1.children;
      assert (c + [n]) + rest == c + ([n] + rest);
      var t := Attach(s, [n]);
      assert t.open[..k] == s.open[..k];
    }
  }

  /** Feeding the listing of a forest attaches exactly that forest. */
  lemma {:induction false} FeedListing(s: Stack, f: seq<Node>, depth: nat)
    requires Above(s, depth)
    ensures Close(Feed(s, Listing(f, depth)), depth) == Attach(s, f)
    decreases f
  {
    hide *;
    if f == [] {
      FeedNothing(s, f, depth);
    } else {
      var n, rest := f[0], f[1..];
      var below, after := Listing(n.children, depth + 1), Listing(rest, depth);
      var inside := Push(s, depth, n.(children := []));
      var fed := Feed(inside, below);
      FeedHead(s, n, depth, below + after);
      FeedConcat(inside, below, after);
      ListingCons(f, depth);
      assert Feed(s, Listing(f, depth)) == Feed(fed, after);
      PushAbove(s, depth, n.(children := []));
      FeedListing(inside, n.children, depth + 1);
      CloseTwice(fed, depth + 1, depth);
      AttachOne(s, n, depth);
      assert Close(fed, depth) == Attach(s, [n]);
      FeedAfterClose(fed, rest, depth);
      AttachAbove(s, [n], depth);
      FeedListing(Attach(s, [n]), rest, depth);
      AttachMore(s, n, rest);
      assert f == [n] + rest;
    }
  }

  lemma FeedNothing(s: Stack, f: seq<Node>, depth: nat)
    requires Above(s, depth) && f == []
    ensures Close(Feed(s, Listing(f, depth)), depth) == Attach(s, f)
  {
    AttachNothing(s);
  }

  lemma PushAbove(s: Stack, depth: nat, n: Node)
    ensures Above(Push(s, depth, n), depth + 1)
    ensures Attach(Push(s, depth, n), []) == Push(s, depth, n)
  {
    AttachNothing(Push(s, depth, n));
  }

  lemma ListingCons(f: seq<Node>, depth: nat)
    requires f != []
    ensures Listing(f, depth) == [(depth, ShellOf(f[0]))] + (Listing(f[0].children, depth + 1) + Listing(f[1..], depth))
  {
  }

  lemma FeedHead(s: Stack, n: Node, depth: nat, more: seq<(nat, Shell)>)
    requires Above(s, depth)
    ensures Feed(s, [(depth, ShellOf(n))] + more) == Feed(Push(s, depth, n.(children := [])), more)
  {
    assert ([(depth, ShellOf(n))] + more)[1..] == more;
  }

  lemma AttachAbove(s: Stack, f: seq<Node>, depth: nat)
    requires Above(s, depth)
    ensures Above(Attach(s, f), depth)
  {
  }

  lemma AttachNothing(s: Stack)
    ensures Attach(s, []) == s
  {
    if s.open != [] {
      var k := |s.open| - 1;
      assert s.open == s.open[..k] + [s.open[k]];
      assert s.open[k].1.children + [] == s.open[k].1.children;
    }
  }

  /** The stack inverts the pre-order listing. */
  lemma AssembleInvertsListing(f: seq<Node>)
    ensures Assembled(Listing(f, 0)) == f
  {
    FeedListing(Stack([], []), f, 0);
  }

  // ------------------------------------ no line is lost, whatever its indent

  function Preorder(f: seq<Node>): seq<Shell>
  {
    if f == [] then [] else [ShellOf(f[0])] + Preorder(f[0].children) + Preorder(f[1..])
  }

  function OpenPreorder(open: seq<(nat, Node)>): seq<Shell>
  {
    if open == [] then [] else [ShellOf(open[0].1)] + Preorder(open[0].1.children) + OpenPreorder(open[1..])
  }

  function Seen(s: Stack): seq<Shell> { Preorder(s.roots) + OpenPreorder(s.open) }

  lemma {:induction false} PreorderConcat(f: seq<Node>, g: seq<Node>)
    ensures Preorder(f + g) == Preorder(f) + Preorder(g)
    decreases |f|
  {
    if f == [] {
      assert f + g == g;
    } else {
      assert (f + g)[1..] == f[1..] + g;
      PreorderConcat(f[1..], g);
    }
  }

  lemma {:induction false} OpenPreorderConcat(p: seq<(nat, Node)>, q: seq<(nat, Node)>)
    ensures OpenPreorder(p + q) == OpenPreorder(p) + OpenPreorder(q)
    decreases |p|
  {
    if p == [] {
      assert p + q == q;
    } else {
      assert (p + q)[1..] == p[1..] + q;
      OpenPreorderConcat(p[1..], q);
    }
  }

  lemma OpenOne(depth: nat, n: Node)
    ensures OpenPreorder([(depth, n)]) == [ShellOf(n)] + Preorder(n.children) == Preorder([n])
  {
    assert [(depth, n)][1..] == [] && [n][1..] == [];
    assert [ShellOf(n)] + Preorder(n.children) + [] == [ShellOf(n)] + Preorder(n.children);
  }

  lemma PopKeeps(s: Stack)
    requires s.open != []
    ensures Seen(Pop(s)) == Seen(s)
  {
    hide Preorder, OpenPreorder;
    var k := |s.open| - 1;
    var n := s.open[k].1;
    OpenOne(s.open[k].0, n);
    assert s.open == s.open[..k] + [s.open[k]];
    OpenPreorderConcat(s.open[..k], [s.open[k]]);
    if k == 0 {
      PreorderConcat(s.roots, [n]);
      PopToRoot(s);
    } else {
      var (d, parent) := s.open[k-1];
      PreorderConcat(parent.children, [n]);
      OpenOne(d, parent);
      OpenOne(d, AddChild(parent, n));
      assert s.open[..k] == s.open[..k-1] + [s.open[k-1]];
      OpenPreorderConcat(s.open[..k-1], [s.open[k-1]]);
      OpenPreorderConcat(s.open[..k-1], [(d, AddChild(parent, n))]);
    }
  }

  lemma PopToRoot(s: Stack)
    requires |s.open| == 1
    ensures Pop(s) == Stack(s.roots + [s.open[0].1], []) && OpenPreorder(s.open[..0]) == []
    ensures OpenPreorder([]) == []
  {
  }

  lemma {:induction false} CloseKeeps(s: Stack, depth: nat)
    ensures Seen(Close(s, depth)) == Seen(s)
    decreases |s.open|
  {
    if s.open != [] && s.open[|s.open|-1].0 >= depth {
      PopKeeps(s);
      CloseKeeps(Pop(s), depth);
    }
  }

  function Shells(entries: seq<(nat, Shell)>): (s: seq<Shell>)
    ensures |s| == |entries| && forall i :: 0 <= i < |s| ==> s[i] == entries[i].1
  {
    seq(|entries|, i requires 0 <= i < |entries| => entries[i].1)
  }

  lemma PushSeen(t: Stack, depth: nat, shell: Shell)
    ensures Seen(Push(t, depth, NodeOf(shell))) == Seen(t) + [shell]
  {
    OpenOne(depth, NodeOf(shell));
    OpenPreorderConcat(t.open, [(depth, NodeOf(shell))]);
    assert Preorder([]) == [] && ShellOf(NodeOf(shell)) == shell;
    hide Preorder, OpenPreorder;
    assert OpenPreorder([(depth, NodeOf(shell))]) == [shell];
    assert Preorder(t.roots) + (OpenPreorder(t.open) + [shell]) == (Preorder(t.roots) + OpenPreorder(t.open)) + [shell];
  }

  lemma {:induction false} FeedKeeps(s: Stack, entries: seq<(nat, Shell)>)
    ensures Seen(Feed(s, entries)) == Seen(s) + Shells(entries)
    decreases |entries|
  {
    if entries == [] {
      assert Seen(s) + [] == Seen(s);
    } else {
      var (depth, shell) := entries[0];
      hide Seen, Close, Push, Preorder, OpenPreorder;
      var t := Close(s, depth);
      CloseKeeps(s, depth);
      PushSeen(t, depth, shell);
      FeedKeeps(Push(t, depth, NodeOf(shell)), entries[1..]);
      ShellsCons(Seen(s), entries);
    }
  }

  lemma ShellsCons(seen: seq<Shell>, entries: seq<(nat, Shell)>)
    requires entries != []
    ensures (seen + [entries[0].1]) + Shells(entries[1..]) == seen + Shells(entries)
  {
    assert Shells(entries) == [entries[0].1] + Shells(entries[1..]);
  }

  lemma {:induction false} ClosedOut(s: Stack)
    ensures Close(s, 0).open == []
    decreases |s.open|
  {
    if s.open != [] { ClosedOut(Pop(s)); }
  }

  /** Whatever the indents, the assembled forest lists every line once, in line order. */
  lemma AssembleKeepsEveryLine(entries: seq<(nat, Shell)>)
    ensures Preorder(Assembled(entries)) == Shells(entries)
  {
    var start := Stack([], []);
    assert Seen(start) == [] && Seen(start) + Shells(entries) == Shells(entries);
    FeedKeeps(start, entries);
    CloseKeeps(Feed(start, entries), 0);
    ClosedOut(Feed(start, entries));
    var end := Close(Feed(start, entries), 0);
    assert OpenPreorder(end.open) == [] && Preorder(end.roots) + [] == Preorder(end.roots);
  }

  // --------------------------------------------------------- clean text

  /** An attribute key the tokenizer and the `=` split leave whole. */
  predicate CleanKey(k: string) { k != [] && '=' !in k && '"' !in k && !HasBlank(k) && OneLine(k) }

  predicate CleanKeys(attrs: seq<Entry<string>>) { forall i :: 0 <= i < |attrs| ==> CleanKey(attrs[i].key) }

  /** No line break. */
  predicate Unbroken(s: string) { '\n' !in s }

  predicate UnbrokenValues(attrs: seq<Entry<string>>) { forall i :: 0 <= i < |attrs| ==> Unbroken(attrs[i].value) }

  predicate UnbrokenShell(s: Shell) { Unbroken(s.labelText) && UnbrokenValues(s.attrs) }

  /** Printed, the text does not end in a carriage return: it has none there, or is quoted. */
  predicate WholeText(s: string) { s == [] || s[|s|-1] != '\r' || HasBlank(s) }

  predicate WholeAttrs(attrs: seq<Entry<string>>) { attrs != [] ==> WholeText(attrs[|attrs|-1].value) }

  /** The node's printed line does not end in a carriage return. */
  predicate WholeShell(s: Shell)
  {
    WholeAttrs(s.attrs) && (s.attrs == [] && s.ops == {} ==> WholeText(s.labelText))
  }

  predicate CleanShell(s: Shell) { CleanKeys(s.attrs) && UnbrokenShell(s) && WholeShell(s) }

  predicate WellKeyed(f: seq<Node>)
  {
    f == [] || (CleanKeys(f[0].attrs) && WellKeyed(f[0].children) && WellKeyed(f[1..]))
  }

  predicate UnbrokenForest(f: seq<Node>)
  {
    f == [] || (UnbrokenShell(ShellOf(f[0])) && UnbrokenForest(f[0].children) && UnbrokenForest(f[1..]))
  }

  predicate WholeEnds(f: seq<Node>)
  {
    f == [] || (WholeShell(ShellOf(f[0])) && WholeEnds(f[0].children) && WholeEnds(f[1..]))
  }

  /** Clean attribute keys, no line break in any text, no line that ends in a carriage return. */
  predicate Clean(f: seq<Node>) { WellKeyed(f) && UnbrokenForest(f) && WholeEnds(f) }

  function SanitizedAttrs(attrs: SortedMap<string>): (s: SortedMap<string>)
    ensures |s| == |attrs|
    ensures forall i :: 0 <= i < |s| ==> s[i] == Entry(attrs[i].key, Cleaned(attrs[i].value))
  {
    seq(|attrs|, i requires 0 <= i < |attrs| => Entry(attrs[i].key, Cleaned(attrs[i].value)))
  }

  function SanitizedNode(n: Node): Node
  {
    Node(n.r, n.role, Cleaned(n.labelText), n.ops, SanitizedAttrs(n.attrs), Sanitized(n.children))
  }

  /** Labels and attribute values with every double quote turned into a single one. */
  function Sanitized(f: seq<Node>): seq<Node>
  {
    if f == [] then [] else [SanitizedNode(f[0])] + Sanitized(f[1..])
  }

  predicate QuoteFree(f: seq<Node>)
  {
    f == [] || (
      && '"' !in f[0].labelText
      && (forall i :: 0 <= i < |f[0].attrs| ==> '"' !in f[0].attrs[i].value)
      && QuoteFree(f[0].children)
      && QuoteFree(f[1..]))
  }

  lemma AttrsFixed(attrs: SortedMap<string>)
    ensures SanitizedAttrs(attrs) == attrs <==> forall i :: 0 <= i < |attrs| ==> '"' !in attrs[i].value
  {
    hide Cleaned;
    forall i | 0 <= i < |attrs| ensures SanitizedAttrs(attrs)[i] == attrs[i] <==> '"' !in attrs[i].value {
      CleanedFixed(attrs[i].value);
    }
  }

  lemma {:induction false} SanitizedFixed(f: seq<Node>)
    ensures Sanitized(f) == f <==> QuoteFree(f)
    decreases f
  {
    if f != [] {
      var n := f[0];
      CleanedFixed(n.labelText);
      SanitizedFixed(n.children);
      SanitizedFixed(f[1..]);
      AttrsFixed(n.attrs);
      hide Cleaned, SanitizedAttrs;
      assert Sanitized(f)[0] == SanitizedNode(n) && Sanitized(f)[1..] == Sanitized(f[1..]);
      assert f == [n] + f[1..];
    }
  }

  // ------------------------------------------------------ one line read back

  function Among(all: seq<Op>, ops: set<Op>): set<Op> { set o | o in all && o in ops }

  lemma {:induction false} OpsRead(all: seq<Op>, ops: set<Op>, line: nat, acc: set<Op>)
    ensures ParseOps(OpCodes(all, ops), line, acc) == Ok(acc + Among(all, ops))
    ensures forall i :: 0 <= i < |OpCodes(all, ops)| ==> IsWord(OpCodes(all, ops)[i])
    ensures OpCodes(all, ops) == [] ==> Among(all, ops) == {}
    decreases |all|
  {
    if all == [] {
      assert acc + Among(all, ops) == acc;
    } else {
      var o, rest := all[0], OpCodes(all[1..], ops);
      assert forall x :: x in all <==> x == o || x in all[1..];
      if o in ops {
        OpRoundTrip(o);
        OpsRead(all[1..], ops, line, acc + {o});
        assert Among(all, ops) == {o} + Among(all[1..], ops);
        assert ([OpCode(o)] + rest)[1..] == rest;
        assert acc + {o} + Among(all[1..], ops) == acc + Among(all, ops);
      } else {
        OpsRead(all[1..], ops, line, acc);
        assert Among(all, ops) == Among(all[1..], ops);
        assert [] + rest == rest;
      }
    }
  }

  lemma {:induction false} JoinedWords(p: seq<string>, c: char)
    requires p != [] && forall i :: 0 <= i < |p| ==> IsWord(p[i])
    requires c == ','
    ensures var s := JoinWith(p, c); s != [] && '=' !in s && '"' !in s && !HasBlank(s) && OneLine(s)
    decreases |p|
  {
    WordIsSolid(p[0]);
    if |p| > 1 {
      JoinedWords(p[1..], c);
      var s, tail := JoinWith(p, c), JoinWith(p[1..], c);
      forall i | 0 <= i < |s| ensures s[i] != '=' && s[i] != '"' && !IsBlank(s[i]) && s[i] != '\n' && s[i] != '\r' {
        if i < |p[0]| { assert s[i] == p[0][i]; }
        else if i > |p[0]| { assert s[i] == tail[i - |p[0]| - 1] && s[i] in tail; }
      }
    }
  }

  function ClusterTokens(n: Node): seq<string>
  {
    if n.ops == {} then [] else [JoinWith(OpCodes(OPS, n.ops), ',')]
  }

  lemma ClusterRead(n: Node, line: nat, shell: Shell, more: seq<string>)
    requires shell.ops == {}
    ensures ParseFields(ClusterTokens(n) + more, line, shell) == ParseFields(more, line, shell.(ops := n.ops))
    ensures forall i :: 0 <= i < |ClusterTokens(n)| ==> Solid(ClusterTokens(n)[i]) && OneLine(ClusterTokens(n)[i])
  {
    if n.ops == {} {
      assert [] + more == more;
    } else {
      var codes := OpCodes(OPS, n.ops);
      var tok := JoinWith(codes, ',');
      OpsRead(OPS, n.ops, line, {});
      AllOps(n.ops);
      JoinedWords(codes, ',');
      SolidPlain(tok);
      IndexOfAbsent(tok, '=');
      forall i | 0 <= i < |codes| ensures ',' !in codes[i] { WordIsSolid(codes[i]); }
      SplitJoin(codes, ',');
      assert {} + n.ops == n.ops;
      assert ([tok] + more)[1..] == more;
    }
  }

  lemma AllOps(ops: set<Op>)
    ensures Among(OPS, ops) == ops
  {
    forall o | o in ops ensures o in OPS {
      match o
      case Click => assert OPS[0] == o;
      case Fill => assert OPS[1] == o;
      case Scroll => assert OPS[2] == o;
      case Key => assert OPS[3] == o;
      case Submit => assert OPS[4] == o;
      case Hover => assert OPS[5] == o;
      case Focus => assert OPS[6] == o;
    }
  }

  lemma AttrRead(e: Entry<string>)
    requires CleanKey(e.key)
    ensures var tok := AttrToken(e);
            && Solid(tok)
            && IndexOf(tok, '=') == |e.key| < |tok| && tok[..|e.key|] == e.key
            && StripQuotes(tok[|e.key|+1..]) == Cleaned(e.value)
  {
    var tok, v := AttrToken(e), QuoteValue(e.value);
    hide QuoteValue, Cleaned, OneLine, StripQuotes;
    IndexOfAfter(e.key, '=', v);
    ScanPlain(e.key, false);
    ScanValue(e.value);
    ScanConcat(e.key, ['='] + v, false);
    ScanConcat(['='], v, false);
    assert ['='][1..] == [] && Scan(['='], false) == Some(false);
    assert tok == e.key + (['='] + v);
    assert tok[|e.key|+1..] == v;
  }

  lemma {:induction false} AttrsRead(done: SortedMap<string>, todo: SortedMap<string>, line: nat, shell: Shell)
    requires CleanKeys(todo) && shell.attrs == done && Ascending(done + SanitizedAttrs(todo))
    ensures ParseFields(AttrTokens(todo), line, shell) == Ok(shell.(attrs := done + SanitizedAttrs(todo)))
    decreases |todo|
  {
    hide *;
    if todo == [] {
      AttrsReadNone(done, todo, line, shell);
    } else {
      AttrsCons(done, todo);
      var rest: SortedMap<string> := todo[1..];
      var extended: SortedMap<string> := done + [Entry(todo[0].key, Cleaned(todo[0].value))];
      CleanParts(todo);
      AttrStep(done, todo[0], AttrTokens(rest), line, shell);
      AttrsRead(extended, rest, line, shell.(attrs := extended));
    }
  }

  lemma AttrsReadNone(done: SortedMap<string>, todo: SortedMap<string>, line: nat, shell: Shell)
    requires todo == [] && shell.attrs == done
    ensures Ascending(done + SanitizedAttrs(todo))
    ensures ParseFields(AttrTokens(todo), line, shell) == Ok(shell.(attrs := done + SanitizedAttrs(todo)))
  {
    assert done + SanitizedAttrs(todo) == done;
  }

  lemma AttrsCons(done: SortedMap<string>, todo: SortedMap<string>)
    requires todo != [] && Ascending(done + SanitizedAttrs(todo))
    ensures var first := [Entry(todo[0].key, Cleaned(todo[0].value))];
            && Ascending(todo[1..]) && Ascending(done + first)
            && (done + first) + SanitizedAttrs(todo[1..]) == done + SanitizedAttrs(todo)
    ensures AttrTokens(todo) == [AttrToken(todo[0])] + AttrTokens(todo[1..])
  {
    TailAscending(todo);
    SanitizedCons(todo);
    hide Less, AttrToken, SanitizedAttrs, Ascending;
    var first := [Entry(todo[0].key, Cleaned(todo[0].value))];
    EntriesRegroup(done, first, SanitizedAttrs(todo[1..]));
    AscendingPrefix(done + first, SanitizedAttrs(todo[1..]));
  }

  lemma TailAscending(attrs: SortedMap<string>)
    requires attrs != []
    ensures Ascending(attrs[1..])
  {
    hide Less;
  }

  lemma SanitizedCons(attrs: SortedMap<string>)
    requires attrs != [] && Ascending(attrs[1..])
    ensures SanitizedAttrs(attrs) == [Entry(attrs[0].key, Cleaned(attrs[0].value))] + SanitizedAttrs(attrs[1..])
  {
    hide Less, Ascending;
  }

  lemma EntriesRegroup(a: seq<Entry<string>>, b: seq<Entry<string>>, c: seq<Entry<string>>)
    ensures (a + b) + c == a + (b + c)
  {
  }

  lemma CleanParts(attrs: seq<Entry<string>>)
    requires CleanKeys(attrs) && attrs != []
    ensures CleanKeys(attrs[1..]) && CleanKey(attrs[0].key)
  {
    hide CleanKey;
  }

  lemma AttrStep(done: SortedMap<string>, e: Entry<string>, more: seq<string>, line: nat, shell: Shell)
    requires CleanKey(e.key)
    requires shell.attrs == done && Ascending(done + [Entry(e.key, Cleaned(e.value))])
    ensures ParseFields([AttrToken(e)] + more, line, shell)
            == ParseFields(more, line, shell.(attrs := done + [Entry(e.key, Cleaned(e.value))]))
  {
    hide AttrToken, Insert, OneLine;
    AttrRead(e);
    assert e.key != [] by { CleanKeyNonEmpty(e.key); }
    InsertLast(done, Entry(e.key, Cleaned(e.value)));
    assert ([AttrToken(e)] + more)[1..] == more;
  }

  lemma CleanKeyNonEmpty(k: string)
    requires CleanKey(k)
    ensures k != []
  {
  }

  lemma {:induction false} AttrsSolid(attrs: seq<Entry<string>>)
    requires CleanKeys(attrs)
    ensures forall i :: 0 <= i < |AttrTokens(attrs)| ==> Solid(AttrTokens(attrs)[i])
    decreases |attrs|
  {
    if attrs != [] {
      hide Solid, CleanKey, CleanKeys;
      CleanParts(attrs);
      AttrRead(attrs[0]);
      AttrsSolid(attrs[1..]);
    }
  }

  lemma DecimalSolid(n: nat)
    ensures Solid(Decimal(n)) && OneLine(Decimal(n)) && Decimal(n)[0] != ' ' && !IsWhitespace(Decimal(n)[0])
  {
    SolidPlain(Decimal(n));
  }

  /** A printed node line reads back as the node's own fields, quotes softened. */
  lemma NodeTokensRead(n: Node, line: nat)
    requires CleanKeys(n.attrs)
    ensures ParseShell(NodeTokens(n), line) == Ok(ShellOf(SanitizedNode(n)))
    ensures forall i :: 0 <= i < |NodeTokens(n)| ==> Solid(NodeTokens(n)[i])
  {
    hide *;
    var head, fields := [Decimal(n.r), RoleCode(n.role), QuoteLabel(n.labelText)],
        ClusterTokens(n) + AttrTokens(n.attrs);
    DecimalSolid(n.r);
    ParseDecimal(n.r, U32_MAX);
    RoleRoundTrip(n.role);
    WordIsSolid(RoleCode(n.role));
    SolidLabel(n.labelText);
    ClusterRead(n, line, BareShell(n), AttrTokens(n.attrs));
    AttrsSolid(n.attrs);
    BareRead(n, line);
    NodeTokensSplit(n);
    SolidHead(head[0], head[1], head[2], fields);
    ShellRead(n, head, fields, line);
  }

  ghost function BareShell(n: Node): (s: Shell)
    ensures s.ops == {}
  {
    Shell(n.r, n.role, Cleaned(n.labelText), {}, [])
  }

  lemma BareRead(n: Node, line: nat)
    requires CleanKeys(n.attrs)
    ensures ParseFields(AttrTokens(n.attrs), line, BareShell(n).(ops := n.ops))
            == Ok(Shell(n.r, n.role, Cleaned(n.labelText), n.ops, SanitizedAttrs(n.attrs)))
  {
    hide ParseFields, CleanKeys;
    assert [] + SanitizedAttrs(n.attrs) == SanitizedAttrs(n.attrs);
    AttrsRead([], n.attrs, line, BareShell(n).(ops := n.ops));
  }

  lemma NodeTokensSplit(n: Node)
    ensures NodeTokens(n)
            == [Decimal(n.r), RoleCode(n.role), QuoteLabel(n.labelText)] + (ClusterTokens(n) + AttrTokens(n.attrs))
  {
  }

  lemma SolidHead(a: string, b: string, c: string, fields: seq<string>)
    requires Solid(a) && Solid(b) && Solid(c)
    requires forall i :: 0 <= i < |fields| ==> Solid(fields[i])
    ensures var t := [a, b, c] + fields; forall i :: 0 <= i < |t| ==> Solid(t[i])
  {
    hide Solid;
  }

  lemma ShellRead(n: Node, head: seq<string>, fields: seq<string>, line: nat)
    requires |head| == 3
    requires ParseUnsigned(head[0], U32_MAX) == Some(n.r as nat) && ParseRole(head[1]) == Some(n.role)
    requires StripQuotes(head[2]) == Cleaned(n.labelText)
    requires ParseFields(fields, line, BareShell(n))
             == Ok(Shell(n.r, n.role, Cleaned(n.labelText), n.ops, SanitizedAttrs(n.attrs)))
    ensures ParseShell(head + fields, line) == Ok(ShellOf(SanitizedNode(n)))
  {
    hide ParseUnsigned, ParseRole, ParseFields;
    assert (head + fields)[3..] == fields;
  }

  /** A printed line carries its depth and reads back as the sanitized node. */
  lemma NodeLineRead(n: Node, depth: nat, line: nat)
    requires CleanKeys(n.attrs)
    ensures !AllWhitespace(NodeLine(n, depth))
    ensures SplitIndent(NodeLine(n, depth)) == (depth, Line(NodeTokens(n)))
    ensures ParseLine(Line(NodeTokens(n)), line) == Ok(ShellOf(SanitizedNode(n)))
  {
    NodeTokensRead(n, line);
    hide *;
    var t := NodeTokens(n);
    TokensOfLine(t);
    ParseLineIs(Line(t), line);
    FirstToken(n);
    LineStarts(t);
    IndentRead(depth, Line(t));
    NodeLineIs(n, depth);
    NotBlank(Spaces(2 * depth), Line(t));
  }

  lemma ParseLineIs(body: string, line: nat)
    ensures ParseLine(body, line) == ParseShell(AllTokens(body), line)
  {
  }

  lemma FirstToken(n: Node)
    ensures var t := NodeTokens(n)[0]; t != [] && t[0] != ' ' && !IsWhitespace(t[0])
  {
    DecimalSolid(n.r);
  }

  lemma LineStarts(t: seq<string>)
    requires t != [] && t[0] != []
    ensures Line(t) != [] && Line(t)[0] == t[0][0]
  {
  }

  lemma NotBlank(pad: string, body: string)
    requires body != [] && !IsWhitespace(body[0])
    ensures !AllWhitespace(pad + body)
  {
    assert (pad + body)[|pad|] == body[0];
  }

  // ------------------------------------------------------------ the tree

  /** A token keeps to its line and, at the end of it, keeps its last character. */
  lemma QuotedTexts(s: string)
    ensures Unbroken(s) ==> Unbroken(QuoteLabel(s)) && Unbroken(QuoteValue(s))
    ensures QuoteLabel(s) != [] && (QuoteLabel(s)[|QuoteLabel(s)|-1] != '\r' <==> WholeText(s))
    ensures s != [] ==> QuoteValue(s) != [] && (QuoteValue(s)[|QuoteValue(s)|-1] != '\r' <==> WholeText(s))
  {
    var c := Cleaned(s);
    assert HasBlank(c) <==> HasBlank(s) by {
      if HasBlank(s) {
        var i :| 0 <= i < |s| && IsBlank(s[i]);
        assert IsBlank(c[i]);
      }
    }
  }

  lemma AttrTokenEnds(e: Entry<string>)
    requires CleanKey(e.key)
    ensures AttrToken(e) != [] && (Unbroken(e.value) ==> Unbroken(AttrToken(e)))
    ensures AttrToken(e)[|AttrToken(e)|-1] != '\r' <==> WholeText(e.value)
  {
    QuotedTexts(e.value);
    hide QuoteValue, WholeText;
    assert e.value == [] ==> WholeText(e.value) && QuoteValue(e.value) == [] by { EmptyValue(); }
  }

  lemma EmptyValue()
    ensures QuoteValue([]) == [] && WholeText([])
  {
  }

  lemma {:induction false} AttrTokensUnbroken(attrs: seq<Entry<string>>)
    requires CleanKeys(attrs) && UnbrokenValues(attrs)
    ensures forall i :: 0 <= i < |AttrTokens(attrs)| ==> Unbroken(AttrTokens(attrs)[i])
    decreases |attrs|
  {
    if attrs != [] {
      hide Unbroken, CleanKey, AttrToken;
      AttrTokenEnds(attrs[0]);
      AttrTokensUnbroken(attrs[1..]);
    }
  }

  lemma {:induction false} AttrTokensAt(attrs: seq<Entry<string>>)
    ensures |AttrTokens(attrs)| == |attrs|
    ensures forall i :: 0 <= i < |attrs| ==> AttrTokens(attrs)[i] == AttrToken(attrs[i])
    decreases |attrs|
  {
    if attrs != [] { AttrTokensAt(attrs[1..]); }
  }

  lemma {:induction false} LineUnbroken(tokens: seq<string>)
    requires forall i :: 0 <= i < |tokens| ==> Unbroken(tokens[i])
    ensures Unbroken(Spaced(tokens)) && (tokens != [] ==> Unbroken(Line(tokens)))
    decreases |tokens|
  {
    if tokens != [] { LineUnbroken(tokens[1..]); }
  }

  /** A line ends as its last token does. */
  lemma LineEnd(pad: string, tokens: seq<string>)
    requires tokens != [] && tokens[|tokens|-1] != []
    ensures var line, last := pad + Line(tokens), tokens[|tokens|-1];
            line != [] && line[|line|-1] == last[|last|-1]
  {
    var k := |tokens| - 1;
    if k > 0 {
      assert tokens == tokens[..k] + [tokens[k]];
      LineGrows(pad, tokens[..k], tokens[k]);
    } else {
      assert tokens == [tokens[0]];
      LineOfOne(tokens[0]);
    }
  }

  lemma NodeTokensUnbroken(n: Node)
    requires CleanKeys(n.attrs) && UnbrokenShell(ShellOf(n))
    ensures forall i :: 0 <= i < |NodeTokens(n)| ==> Unbroken(NodeTokens(n)[i])
  {
    HeadUnbroken(n);
    ClusterRead(n, 0, BareShell(n), []);
    OneLinesUnbroken(ClusterTokens(n));
    AttrTokensUnbroken(n.attrs);
    NodeTokensSplit(n);
    hide *;
  }

  lemma HeadUnbroken(n: Node)
    requires Unbroken(n.labelText)
    ensures Unbroken(Decimal(n.r)) && Unbroken(RoleCode(n.role)) && Unbroken(QuoteLabel(n.labelText))
  {
    DecimalSolid(n.r);
    RoleRoundTrip(n.role);
    WordIsSolid(RoleCode(n.role));
    QuotedTexts(n.labelText);
    hide Decimal, RoleCode, QuoteLabel;
  }

  lemma OneLinesUnbroken(tokens: seq<string>)
    ensures (forall i :: 0 <= i < |tokens| ==> Solid(tokens[i]) && OneLine(tokens[i]))
        ==> forall i :: 0 <= i < |tokens| ==> Unbroken(tokens[i])
  {
    hide Solid;
  }

  lemma NodeTokensLast(n: Node)
    requires CleanKeys(n.attrs)
    ensures var last := NodeTokens(n)[|NodeTokens(n)|-1];
            last != [] && (last[|last|-1] != '\r' <==> WholeShell(ShellOf(n)))
  {
    var last := NodeTokens(n)[|NodeTokens(n)|-1];
    NodeTokensSplit(n);
    AttrTokensAt(n.attrs);
    if n.attrs != [] {
      AttrTokenEnds(n.attrs[|n.attrs|-1]);
    } else {
      LastWithoutAttrs(n);
    }
    hide Decimal, RoleCode, QuoteLabel, AttrTokens, AttrToken, NodeTokens, ClusterTokens, WholeText;
  }

  lemma LastWithoutAttrs(n: Node)
    requires n.attrs == []
    ensures var last := NodeTokens(n)[|NodeTokens(n)|-1];
            last != [] && (last[|last|-1] != '\r' <==> n.ops != {} || WholeText(n.labelText))
  {
    NodeTokensSplit(n);
    if n.ops != {} {
      ClusterRead(n, 0, BareShell(n), []);
      SolidOneLineEnd(ClusterTokens(n)[0]);
    } else {
      QuotedTexts(n.labelText);
    }
    hide Decimal, RoleCode, QuoteLabel, JoinWith, OpCodes, WholeText;
  }

  lemma SolidOneLineEnd(t: string)
    requires Solid(t) && OneLine(t)
    ensures t != [] && t[|t|-1] != '\r'
  {
    assert t[|t|-1] in t;
  }

  /** A printed line breaks exactly where its texts do, and ends as its last text does. */
  lemma NodeLineEnds(n: Node, depth: nat)
    requires CleanKeys(n.attrs)
    ensures var line := NodeLine(n, depth);
            && (UnbrokenShell(ShellOf(n)) ==> Unbroken(line))
            && line != [] && (line[|line|-1] != '\r' <==> WholeShell(ShellOf(n)))
  {
    hide NodeTokens, Line, NodeLine, WholeShell, UnbrokenShell;
    NodeTokensLast(n);
    NodeLineIs(n, depth);
    LineEnd(Spaces(2 * depth), NodeTokens(n));
    if UnbrokenShell(ShellOf(n)) {
      NodeTokensUnbroken(n);
      LineUnbroken(NodeTokens(n));
    }
  }

  lemma {:induction false} ForestWhole(f: seq<Node>, depth: nat)
    requires Clean(f)
    ensures forall i :: 0 <= i < |ForestLines(f, depth)| ==> WholeLine(ForestLines(f, depth)[i])
    decreases f
  {
    if f != [] {
      hide NodeLine, CleanKeys, UnbrokenShell, WholeShell;
      var head, below, after := NodeLine(f[0], depth), ForestLines(f[0].children, depth + 1),
          ForestLines(f[1..], depth);
      NodeLineEnds(f[0], depth);
      ForestWhole(f[0].children, depth + 1);
      ForestWhole(f[1..], depth);
      ForestLinesCons(f, depth);
      AllWhole(head, below, after);
    }
  }

  lemma ForestLinesCons(f: seq<Node>, depth: nat)
    requires f != []
    ensures ForestLines(f, depth)
            == [NodeLine(f[0], depth)] + ForestLines(f[0].children, depth + 1) + ForestLines(f[1..], depth)
  {
  }

  lemma AllWhole(head: string, below: seq<string>, after: seq<string>)
    requires WholeLine(head)
    requires forall i :: 0 <= i < |below| ==> WholeLine(below[i])
    requires forall i :: 0 <= i < |after| ==> WholeLine(after[i])
    ensures var all := [head] + below + after; forall i :: 0 <= i < |all| ==> WholeLine(all[i])
  {
    hide WholeLine;
  }

  ghost function Prefixed(p: seq<(nat, Shell)>, r: Result<seq<(nat, Shell)>, TreeError>)
    : Result<seq<(nat, Shell)>, TreeError>
  {
    match r
    case Err(e) => Err(e)
    case Ok(rest) => Ok(p + rest)
  }

  lemma PrefixedTwice(p: seq<(nat, Shell)>, q: seq<(nat, Shell)>, r: Result<seq<(nat, Shell)>, TreeError>)
    ensures Prefixed(p, Prefixed(q, r)) == Prefixed(p + q, r)
  {
    if r.Ok? { assert p + (q + r.value) == (p + q) + r.value; }
  }

  lemma NodeEntry(n: Node, depth: nat, more: seq<string>, line: nat)
    requires CleanKeys(n.attrs)
    ensures ParseEntries([NodeLine(n, depth)] + more, line)
            == Prefixed([(depth, ShellOf(SanitizedNode(n)))], ParseEntries(more, line + 1))
  {
    NodeLineRead(n, depth, line);
    hide AllWhitespace, SplitIndent, ParseLine, NodeLine, Line, NodeTokens, CleanKeys;
    var all := [NodeLine(n, depth)] + more;
    assert all[0] == NodeLine(n, depth) && all[1..] == more;
  }

  /** The printed lines of a forest parse to its sanitized listing. */
  lemma {:induction false} ForestEntries(f: seq<Node>, depth: nat, more: seq<string>, line: nat)
    requires WellKeyed(f)
    ensures ParseEntries(ForestLines(f, depth) + more, line)
            == Prefixed(Listing(Sanitized(f), depth), ParseEntries(more, line + |ForestLines(f, depth)|))
    decreases f
  {
    hide *;
    if f == [] {
      NoEntries(f, depth, more, line);
    } else {
      var n, rest := f[0], f[1..];
      KeyedSplit(f);
      var below, after := ForestLines(n.children, depth + 1), ForestLines(rest, depth);
      var afterMore := after + more;
      var line2 := line + 1 + |below|;
      NodeEntry(n, depth, below + afterMore, line);
      ForestEntries(n.children, depth + 1, afterMore, line + 1);
      ForestEntries(rest, depth, more, line2);
      var head, mid, tail := [(depth, ShellOf(SanitizedNode(n)))], Listing(Sanitized(n.children), depth + 1),
                             Listing(Sanitized(rest), depth);
      PrefixedThrice(head, mid, tail, ParseEntries(more, line2 + |after|), ParseEntries(afterMore, line2),
                     ParseEntries(below + afterMore, line + 1));
      ListingOfSanitized(f, depth);
      ForestLinesCons(f, depth);
      LinesRegroup([NodeLine(n, depth)], below, after, more);
    }
  }

  lemma NoEntries(f: seq<Node>, depth: nat, more: seq<string>, line: nat)
    requires f == []
    ensures ParseEntries(ForestLines(f, depth) + more, line)
            == Prefixed(Listing(Sanitized(f), depth), ParseEntries(more, line + |ForestLines(f, depth)|))
  {
    hide ParseEntries;
    assert [] + more == more;
    PrefixedNothing(ParseEntries(more, line));
  }

  lemma PrefixedThrice(head: seq<(nat, Shell)>, mid: seq<(nat, Shell)>, tail: seq<(nat, Shell)>,
      last: Result<seq<(nat, Shell)>, TreeError>, third: Result<seq<(nat, Shell)>, TreeError>,
      second: Result<seq<(nat, Shell)>, TreeError>)
    requires second == Prefixed(mid, third) && third == Prefixed(tail, last)
    ensures Prefixed(head, second) == Prefixed(head + mid + tail, last)
  {
    PrefixedTwice(mid, tail, last);
    PrefixedTwice(head, mid + tail, last);
    assert head + (mid + tail) == head + mid + tail;
  }

  lemma KeyedSplit(f: seq<Node>)
    requires f != [] && WellKeyed(f)
    ensures CleanKeys(f[0].attrs) && WellKeyed(f[0].children) && WellKeyed(f[1..])
  {
  }

  lemma LinesRegroup(a: seq<string>, b: seq<string>, c: seq<string>, d: seq<string>)
    ensures (a + b + c) + d == a + (b + (c + d))
  {
  }

  lemma PrefixedNothing(r: Result<seq<(nat, Shell)>, TreeError>)
    ensures Prefixed([], r) == r
  {
    if r.Ok? { assert [] + r.value == r.value; }
  }

  lemma ListingOfSanitized(f: seq<Node>, depth: nat)
    requires f != []
    ensures Listing(Sanitized(f), depth)
            == [(depth, ShellOf(SanitizedNode(f[0])))] + Listing(Sanitized(f[0].children), depth + 1)
               + Listing(Sanitized(f[1..]), depth)
  {
    assert Sanitized(f)[1..] == Sanitized(f[1..]);
  }

  /** Printing then parsing gives a clean tree back with double quotes softened. */
  lemma CleanTreeRead(t: Tree)
    requires Clean(t.roots)
    ensures Parse(Encode(t)) == Ok(Tree(Sanitized(t.roots)))
  {
    hide ParseEntries, Sanitized, Listing, ForestLines, Assembled, Unlines, Lines;
    ForestWhole(t.roots, 0);
    var lines := ForestLines(t.roots, 0);
    LinesOfUnlines(lines);
    assert lines + [] == lines;
    ForestEntries(t.roots, 0, [], 1);
    NoLines(1 + |lines|);
    assert Listing(Sanitized(t.roots), 0) + [] == Listing(Sanitized(t.roots), 0);
    AssembleInvertsListing(Sanitized(t.roots));
  }

  lemma NoLines(line: nat)
    ensures ParseEntries([], line) == Ok([])
  {
  }

  /** Clean trees print alike exactly when they differ in quotes only. */
  lemma EncodeTellsApart(a: Tree, b: Tree)
    requires Clean(a.roots) && Clean(b.roots)
    ensures Encode(a) == Encode(b) ==> Sanitized(a.roots) == Sanitized(b.roots)
    ensures QuoteFree(a.roots) && QuoteFree(b.roots) ==> (Encode(a) == Encode(b) <==> a == b)
  {
    CleanTreeRead(a);
    CleanTreeRead(b);
    SanitizedFixed(a.roots);
    SanitizedFixed(b.roots);
  }

  // --------------------------------------------------- token pre-images

  const NUL: char := '\0'

  /** What the state token hashes (crates/vs-daemon/src/tokens.rs). */
  function TokenInput(t: Tree, url: string, page: string): string
  {
    Encode(t) + [NUL] + url + [NUL] + page
  }

  lemma SplitAtNul(a: string, x: string, b: string, y: string)
    requires NUL !in a && NUL !in b
    requires a + [NUL] + x == b + [NUL] + y
    ensures a == b && x == y
  {
    IndexOfAfter(a, NUL, x);
    IndexOfAfter(b, NUL, y);
    var s := a + [NUL] + x;
    assert s[..|a|] == a && s[|a|+1..] == x;
    assert s[..|b|] == b && s[|b|+1..] == y;
  }

  /** Without NULs the pre-image determines the page's tree, address and id. */
  lemma TokenInputInjective(a: Tree, urlA: string, pageA: string, b: Tree, urlB: string, pageB: string)
    requires Clean(a.roots) && Clean(b.roots) && QuoteFree(a.roots) && QuoteFree(b.roots)
    requires NUL !in Encode(a) && NUL !in Encode(b) && NUL !in urlA && NUL !in urlB
    requires TokenInput(a, urlA, pageA) == TokenInput(b, urlB, pageB)
    ensures a == b && urlA == urlB && pageA == pageB
  {
    hide Encode, Clean, QuoteFree;
    var restA, restB := urlA + [NUL] + pageA, urlB + [NUL] + pageB;
    assert TokenInput(a, urlA, pageA) == Encode(a) + [NUL] + restA;
    assert TokenInput(b, urlB, pageB) == Encode(b) + [NUL] + restB;
    SplitAtNul(Encode(a), restA, Encode(b), restB);
    SplitAtNul(urlA, pageA, urlB, pageB);
    EncodeTellsApart(a, b);
  }

  /** What the idempotency key hashes: the primitive and every argument, each NUL-terminated. */
  function ArgsInput(primitive: string, args: seq<string>): string
  {
    primitive + [NUL] + Terminated(args)
  }

  function Terminated(args: seq<string>): string
  {
    if args == [] then [] else args[0] + [NUL] + Terminated(args[1..])
  }

  predicate NulFree(args: seq<string>) { forall i :: 0 <= i < |args| ==> NUL !in args[i] }

  lemma {:induction false} TerminatedInjective(a: seq<string>, b: seq<string>)
    requires NulFree(a) && NulFree(b) && Terminated(a) == Terminated(b)
    ensures a == b
    decreases |a|
  {
    if a != [] && b != [] {
      SplitAtNul(a[0], Terminated(a[1..]), b[0], Terminated(b[1..]));
      TerminatedInjective(a[1..], b[1..]);
      assert a == [a[0]] + a[1..] && b == [b[0]] + b[1..];
    }
  }

  /** Two requests share an idempotency input only when they are the same request. */
  lemma ArgsInputInjective(p: string, a: seq<string>, q: string, b: seq<string>)
    requires NUL !in p && NUL !in q && NulFree(a) && NulFree(b)
    requires ArgsInput(p, a) == ArgsInput(q, b)
    ensures p == q && a == b
  {
    SplitAtNul(p, Terminated(a), q, Terminated(b));
    TerminatedInjective(a, b);
  }

  /** The hasher is fed piece by piece. */
  method FeedArgs(primitive: string, args: seq<string>) returns (fed: string)
    ensures fed == ArgsInput(primitive, args)
  {
    fed := primitive;
    fed := fed + [NUL];
    for i := 0 to |args|
      invariant fed + Terminated(args[i..]) == ArgsInput(primitive, args)
    {
      assert args[i..][0] == args[i] && args[i..][1..] == args[i+1..];
      Append(fed, args[i] + [NUL], Terminated(args[i+1..]));
      Append(fed, args[i], [NUL]);
      fed := fed + args[i];
      fed := fed + [NUL];
    }
  }
}
