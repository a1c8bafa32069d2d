/** When a printed request line reads back as the same request, exactly, and
    that it is always one line. */
module RequestRoundTrip {

  import opened Results
  import opened SortedMaps
  import opened Text
  import opened Tokens
  import opened Requests

  // ------------------------------------------------------------- escaping

  lemma {:induction false} UnescapeInvertsEscape(s: string)
    ensures Unescaped(Escaped(s)) == s
    decreases |s|
  {
    if s != [] {
      var e, rest := EscapeChar(s[0]), Escaped(s[1..]);
      assert s == [s[0]] + s[1..];
      if IsSpecial(s[0]) {
        assert (e + rest)[1] == e[1] && (e + rest)[2..] == rest;
      } else {
        assert (e + rest)[1..] == rest;
      }
      UnescapeInvertsEscape(s[1..]);
    }
  }

  /** The quoting state after `s`, unless a blank or a dangling backslash stops the scan. */
  function RawScan(s: string, q: bool): Option<bool>
    decreases |s|
  {
    if s == [] then Some(q)
    else if s[0] == '\\' then (if |s| == 1 then None else RawScan(s[2..], q))
    else if s[0] == '"' then RawScan(s[1..], !q)
    else if IsBlank(s[0]) && !q then None
    else RawScan(s[1..], q)
  }

  predicate RawSolid(s: string) { s != [] && !IsBlank(s[0]) && RawScan(s, false) == Some(false) }

  lemma {:induction false} RawScanConcat(s: string, t: string, q: bool)
    requires RawScan(s, q).Some?
    ensures RawScan(s + t, q) == RawScan(t, RawScan(s, q).value)
    decreases |s|
  {
    if s == [] {
      assert s + t == t;
    } else if s[0] == '\\' {
      assert (s + t)[1] == s[1] && (s + t)[2..] == s[2..] + t;
      RawScanConcat(s[2..], t, q);
    } else {
      assert (s + t)[1..] == s[1..] + t;
      RawScanConcat(s[1..], t, if s[0] == '"' then !q else q);
    }
  }

  lemma {:induction false} RawScanEnd(s: string, rest: string, q: bool)
    requires RawScan(s, q) == Some(false)
    requires rest == [] || IsBlank(rest[0])
    ensures RawEnd(s + rest, q) == |s|
    decreases |s|
  {
    if s == [] {
      assert s + rest == rest;
    } else if s[0] == '\\' {
      assert (s + rest)[1] == s[1] && (s + rest)[2..] == s[2..] + rest;
      RawScanEnd(s[2..], rest, q);
    } else {
      assert (s + rest)[1..] == s[1..] + rest;
      RawScanEnd(s[1..], rest, if s[0] == '"' then !q else q);
    }
  }

  lemma {:induction false} RawScanPlain(s: string, q: bool)
    requires forall i :: 0 <= i < |s| ==> s[i] != '\\' && s[i] != '"' && (q || !IsBlank(s[i]))
    ensures RawScan(s, q) == Some(q)
    decreases |s|
  {
    if s != [] { RawScanPlain(s[1..], q); }
  }

  lemma {:induction false} RawScanEscaped(s: string, q: bool)
    requires q || ' ' !in s
    ensures RawScan(Escaped(s), q) == Some(q)
    decreases |s|
  {
    if s != [] {
      var e, rest := EscapeChar(s[0]), Escaped(s[1..]);
      assert s[0] in s;
      if IsSpecial(s[0]) {
        assert (e + rest)[1] == e[1] && (e + rest)[2..] == rest;
      } else {
        assert (e + rest)[1..] == rest;
      }
      RawScanEscaped(s[1..], q);
    }
  }

  lemma EscapeCharText(c: char)
    ensures EscapeChar(c) != [] && EscapeChar(c)[0] != '"' && OneLine(EscapeChar(c))
    ensures HasBlank(EscapeChar(c)) <==> c == ' '
  {
    if c == ' ' { assert IsBlank(EscapeChar(c)[0]); }
  }

  lemma BlankConcat(a: string, b: string)
    ensures HasBlank(a + b) <==> HasBlank(a) || HasBlank(b)
  {
    hide IsBlank;
    var c := a + b;
    if HasBlank(a) {
      var i :| 0 <= i < |a| && IsBlank(a[i]);
      assert c[i] == a[i];
    }
    if HasBlank(b) {
      var i :| 0 <= i < |b| && IsBlank(b[i]);
      assert c[|a| + i] == b[i];
    }
  }

  /** Escaped text: no raw line break or tab, a blank only where the text has a space. */
  lemma {:induction false} EscapedText(s: string)
    ensures OneLine(Escaped(s))
    ensures HasBlank(Escaped(s)) <==> ' ' in s
    ensures Escaped(s) == [] <==> s == []
    ensures s != [] ==> Escaped(s)[0] != '"'
    decreases |s|
  {
    hide EscapeChar, HasBlank;
    if s != [] {
      EscapeCharText(s[0]);
      EscapedText(s[1..]);
      BlankConcat(EscapeChar(s[0]), Escaped(s[1..]));
    } else {
      NoBlank();
    }
  }

  lemma NoBlank()
    ensures !HasBlank([])
  {
  }

  /** A printed value reads back, whichever way it was quoted. */
  lemma ArgRead(a: string)
    ensures RawSolid(QuoteArg(Escaped(a))) && OneLine(QuoteArg(Escaped(a)))
    ensures RawScan(QuoteArg(Escaped(a)), false) == Some(false)
    ensures Unescaped(StripQuotes(QuoteArg(Escaped(a)))) == a
  {
    var e := Escaped(a);
    EscapedText(a);
    UnescapeInvertsEscape(a);
    if e == [] || HasBlank(e) {
      QuotedScan(a);
      StripQuoted(e);
    } else {
      RawScanEscaped(a, false);
      assert !IsBlank(e[0]);
    }
  }

  lemma QuotedScan(a: string)
    ensures RawScan(Quoted(Escaped(a)), false) == Some(false)
  {
    var e := Escaped(a);
    RawScanEscaped(a, true);
    assert ['"'][1..] == [];
    assert RawScan(['"'], false) == Some(true) && RawScan(['"'], true) == Some(false);
    RawScanConcat(['"'], e + ['"'], false);
    RawScanConcat(e, ['"'], true);
    assert Quoted(e) == ['"'] + (e + ['"']);
  }

  // ------------------------------------------------------------ splitting

  lemma RawFirst(t: string, tokens: seq<string>)
    requires RawSolid(t)
    ensures RawTokens(t + Spaced(tokens)) == [t] + RawTokens(Spaced(tokens))
  {
    var rest := Spaced(tokens);
    RawScanEnd(t, rest, false);
    assert (t + rest)[0] == t[0];
    assert TrimStart(t + rest) == t + rest;
    assert (t + rest)[..|t|] == t && (t + rest)[|t|..] == rest;
  }

  lemma {:induction false} RawSpaced(tokens: seq<string>)
    requires forall i :: 0 <= i < |tokens| ==> RawSolid(tokens[i])
    ensures RawTokens(Spaced(tokens)) == tokens
    decreases |tokens|
  {
    if tokens != [] {
      hide RawSolid;
      RawFirst(tokens[0], tokens[1..]);
      BlankFirst(tokens[0] + Spaced(tokens[1..]));
      assert [' '] + tokens[0] + Spaced(tokens[1..]) == [' '] + (tokens[0] + Spaced(tokens[1..]));
      RawSpaced(tokens[1..]);
    }
  }

  lemma BlankFirst(s: string)
    ensures RawTokens([' '] + s) == RawTokens(s)
  {
    assert ([' '] + s)[1..] == s;
    assert TrimStart([' '] + s) == TrimStart(s);
  }

  /** A line of solid tokens splits into exactly those tokens. */
  lemma RawLine(first: string, tokens: seq<string>)
    requires RawSolid(first) && forall i :: 0 <= i < |tokens| ==> RawSolid(tokens[i])
    ensures RawTokens(first + Spaced(tokens)) == [first] + tokens
  {
    RawFirst(first, tokens);
    RawSpaced(tokens);
  }

  /** Cutting a line short never yields more tokens. */
  lemma {:induction false} PrefixTokens(s: string, n: nat)
    requires n <= |s|
    ensures |RawTokens(s[..n])| <= |RawTokens(s)|
    decreases |s|
  {
    hide RawTokens, RawEnd, TrimStart;
    if n == 0 {
      NoRawTokens();
    } else {
      if IsBlank(s[0]) {
        TakeDrop(s, n, 1);
        BlankSkipped(s);
        BlankSkipped(s[..n]);
        PrefixTokens(s[1..], n - 1);
      } else {
        var k := RawEnd(s, false);
        RawFront(s);
        RawFront(s[..n]);
        RawEndPrefix(s, n, false);
        if n <= k {
          NoRawTokens();
          assert s[..n][n..] == [];
        } else {
          TakeDrop(s, n, k);
          PrefixTokens(s[k..], n - k);
        }
      }
    }
  }

  lemma NoRawTokens()
    ensures RawTokens([]) == []
  {
  }

  lemma RawFront(s: string)
    requires s != [] && !IsBlank(s[0])
    ensures RawEnd(s, false) > 0
    ensures RawTokens(s) == [s[..RawEnd(s, false)]] + RawTokens(s[RawEnd(s, false)..])
  {
    RawEndPositive(s);
    assert TrimStart(s) == s;
  }

  lemma BlankSkipped(s: string)
    requires s != [] && IsBlank(s[0])
    ensures RawTokens(s) == RawTokens(s[1..])
  {
    assert TrimStart(s) == TrimStart(s[1..]);
  }

  lemma TakeDrop(s: string, n: nat, k: nat)
    requires k <= n <= |s|
    ensures s[..n][k..] == s[k..][..n-k]
  {
  }

  lemma {:induction false} RawEndPrefix(s: string, n: nat, q: bool)
    requires n <= |s|
    ensures RawEnd(s[..n], q) == if RawEnd(s, q) <= n then RawEnd(s, q) else n
    decreases |s|
  {
    hide RawEnd;
    if n == 0 {
      RawEndEmpty(s[..n], q);
    } else if s[0] == '\\' {
      if n == 1 {
        RawEndEscape(s[..n], q);
        RawEndEscape(s, q);
      } else {
        TakeDrop(s, n, 2);
        RawEndEscape(s[..n], q);
        RawEndEscape(s, q);
        RawEndPrefix(s[2..], n - 2, q);
      }
    } else {
      TakeDrop(s, n, 1);
      RawEndPlain(s[..n], q);
      RawEndPlain(s, q);
      RawEndPrefix(s[1..], n - 1, if s[0] == '"' then !q else q);
    }
  }

  lemma RawEndEmpty(s: string, q: bool)
    ensures s == [] ==> RawEnd(s, q) == 0
  {
  }

  lemma RawEndEscape(s: string, q: bool)
    requires s != [] && s[0] == '\\'
    ensures RawEnd(s, q) == if |s| == 1 then 1 else 2 + RawEnd(s[2..], q)
  {
  }

  lemma RawEndPlain(s: string, q: bool)
    requires s != [] && s[0] != '\\'
    ensures RawEnd(s, q) == if IsBlank(s[0]) && !q then 0 else 1 + RawEnd(s[1..], if s[0] == '"' then !q else q)
  {
  }

  // -------------------------------------------------------- reading tokens

  /** Flag names the splitter and the `=` split leave whole. */
  predicate CleanName(k: string)
  {
    && k != []
    && forall i :: 0 <= i < |k| ==> k[i] != '=' && k[i] != '"' && k[i] != '\\' && !IsWhitespace(k[i])
  }

  predicate CleanFlags(flags: seq<Entry<Option<string>>>)
  {
    forall i :: 0 <= i < |flags| ==> CleanName(flags[i].key)
  }

  /** Printed bare, this argument would be taken for a flag. */
  predicate ReadsAsFlag(a: string) { StartsFlag(a) && ' ' !in a }

  predicate NoFlagArgs(args: seq<string>) { forall i :: 0 <= i < |args| ==> !ReadsAsFlag(args[i]) }

  lemma {:induction false} ParseTokensConcat(p: seq<string>, q: seq<string>, parts: Parts)
    ensures ParseTokens(p + q, parts)
            == match ParseTokens(p, parts) case Err(e) => Err(e) case Ok(next) => ParseTokens(q, next)
    decreases |p|
  {
    hide ParseToken;
    if p == [] {
      assert p + q == q;
    } else {
      assert (p + q)[1..] == p[1..] + q;
      var next := ParseToken(p[0], parts);
      if next.Ok? { ParseTokensConcat(p[1..], q, next.value); }
    }
  }

  lemma StartsFlagToken(a: string)
    ensures StartsFlag(QuoteArg(Escaped(a))) <==> ReadsAsFlag(a)
  {
    EscapedText(a);
    if |a| >= 1 {
      var rest := Escaped(a[1..]);
      assert Escaped(a) == EscapeChar(a[0]) + rest;
      if a[0] == '-' && |a| >= 2 { assert Escaped(a)[1] == EscapeChar(a[1])[0]; }
    }
  }

  lemma {:induction false} ArgTokensRead(args: seq<string>, parts: Parts)
    requires NoFlagArgs(args)
    ensures ParseTokens(ArgTokens(args), parts) == Ok(parts.(args := parts.args + args))
    decreases |args|
  {
    hide Escaped, QuoteArg, ReadsAsFlag, ParseToken;
    if args == [] {
      assert parts.args + [] == parts.args;
    } else {
      ArgTokenRead(args[0], parts);
      var printed, rest := QuoteArg(Escaped(args[0])), ArgTokens(args[1..]);
      assert ([printed] + rest)[1..] == rest;
      ArgTokensRead(args[1..], parts.(args := parts.args + [args[0]]));
      ArgsRegroup(parts.args, args);
    }
  }

  lemma ArgsRegroup(before: seq<string>, args: seq<string>)
    requires args != []
    ensures (before + [args[0]]) + args[1..] == before + args
  {
  }

  lemma ArgTokenRead(a: string, parts: Parts)
    requires !ReadsAsFlag(a)
    ensures ParseToken(QuoteArg(Escaped(a)), parts) == Ok(parts.(args := parts.args + [a]))
  {
    hide Escaped, QuoteArg, StripQuotes, Unescaped, ReadsAsFlag, StartsFlag;
    ArgRead(a);
    StartsFlagToken(a);
  }

  lemma NameFacts(k: string)
    requires CleanName(k)
    ensures '=' !in k && k != [] && OneLine(k)
    ensures RawScan(k, false) == Some(false)
  {
    RawScanPlain(k, false);
  }

  /** A flag token is read as its own name and value. */
  lemma FlagRead(f: Entry<Option<string>>, flags: SortedMap<Option<string>>)
    requires CleanName(f.key)
    ensures var t := FlagToken(f);
            StartsFlag(t) && ParseFlag(t[2..], flags) == Ok(Insert(flags, f.key, f.value))
  {
    hide Insert, Unescaped, StripQuotes, QuoteArg, Escaped, CleanName;
    NameFacts(f.key);
    match f.value {
      case None =>
        assert FlagToken(f)[2..] == f.key;
        IndexOfAbsent(f.key, '=');
      case Some(v) =>
        ArgRead(v);
        FlagValueRead(f.key, QuoteArg(Escaped(v)), flags);
        assert FlagToken(f)[2..] == f.key + ['='] + QuoteArg(Escaped(v));
    }
  }

  lemma FlagValueRead(k: string, printed: string, flags: SortedMap<Option<string>>)
    requires k != [] && '=' !in k
    ensures ParseFlag(k + ['='] + printed, flags) == Ok(Insert(flags, k, Some(Unescaped(StripQuotes(printed)))))
  {
    hide Insert, Unescaped, StripQuotes;
    var rest := k + ['='] + printed;
    IndexOfAfter(k, '=', printed);
    assert rest[..|k|] == k && rest[|k|+1..] == printed;
  }

  lemma FlagSolid(f: Entry<Option<string>>)
    requires CleanName(f.key)
    ensures RawSolid(FlagToken(f)) && OneLine(FlagToken(f))
  {
    NameFacts(f.key);
    hide CleanName;
    RawScanPlain("--", false);
    RawScanConcat("--", f.key, false);
    match f.value {
      case None =>
        assert FlagToken(f) == "--" + f.key;
      case Some(v) =>
        ArgRead(v);
        var p := QuoteArg(Escaped(v));
        RawScanPlain("=", false);
        RawScanConcat("=", p, false);
        RawScanConcat("--" + f.key, "=" + p, false);
    }
  }

  lemma {:induction false} FlagTokensRead(done: SortedMap<Option<string>>, todo: seq<Entry<Option<string>>>,
                                          args: seq<string>)
    requires Ascending(done + todo) && CleanFlags(todo)
    ensures ParseTokens(FlagTokens(todo), Parts(args, done)) == Ok(Parts(args, done + todo))
    decreases |todo|
  {
    hide Less, CleanName, FlagToken, ParseFlag, StartsFlag, Insert;
    if todo == [] {
      assert done + todo == done;
    } else {
      assert done + todo == (done + [todo[0]]) + todo[1..];
      AscendingPrefix(done + [todo[0]], todo[1..]);
      FlagRead(todo[0], done);
      InsertLast(done, todo[0]);
      assert FlagTokens(todo)[1..] == FlagTokens(todo[1..]);
      FlagTokensRead(done + [todo[0]], todo[1..], args);
    }
  }

  /** Tokens that are not flags each give at most one argument. */
  function PlainCount(tokens: seq<string>): nat
  {
    if tokens == [] then 0 else (if StartsFlag(tokens[0]) then 0 else 1) + PlainCount(tokens[1..])
  }

  lemma {:induction false} ArgsCount(tokens: seq<string>, parts: Parts)
    requires ParseTokens(tokens, parts).Ok?
    ensures |ParseTokens(tokens, parts).value.args| == |parts.args| + PlainCount(tokens)
    decreases |tokens|
  {
    if tokens != [] {
      ArgsCount(tokens[1..], ParseToken(tokens[0], parts).value);
    }
  }

  lemma {:induction false} PlainCountConcat(p: seq<string>, q: seq<string>)
    ensures PlainCount(p + q) == PlainCount(p) + PlainCount(q)
    ensures PlainCount(p) <= |p|
    decreases |p|
  {
    if p == [] {
      assert p + q == q;
    } else {
      assert (p + q)[1..] == p[1..] + q;
      PlainCountConcat(p[1..], q);
    }
  }

  lemma {:induction false} PlainArgs(args: seq<string>)
    ensures PlainCount(ArgTokens(args)) <= |args| == |ArgTokens(args)|
    ensures PlainCount(ArgTokens(args)) == |args| <==> NoFlagArgs(args)
    decreases |args|
  {
    hide StartsFlag, ReadsAsFlag, QuoteArg, Escaped;
    if args != [] {
      StartsFlagToken(args[0]);
      PlainArgs(args[1..]);
      assert ArgTokens(args)[1..] == ArgTokens(args[1..]);
      assert NoFlagArgs(args) <==> !ReadsAsFlag(args[0]) && NoFlagArgs(args[1..]) by {
        assert forall i :: 0 < i < |args| ==> args[i] == args[1..][i-1];
      }
    }
  }

  lemma {:induction false} PlainFlags(flags: seq<Entry<Option<string>>>)
    ensures PlainCount(FlagTokens(flags)) == 0 && |FlagTokens(flags)| == |flags|
    decreases |flags|
  {
    if flags != [] {
      PlainFlags(flags[1..]);
      assert FlagTokens(flags)[1..] == FlagTokens(flags[1..]);
    }
  }

  lemma {:induction false} ArgTokensSolid(args: seq<string>)
    ensures forall i :: 0 <= i < |ArgTokens(args)| ==> RawSolid(ArgTokens(args)[i]) && OneLine(ArgTokens(args)[i])
    decreases |args|
  {
    hide RawSolid, OneLine, QuoteArg, Escaped;
    if args != [] {
      ArgRead(args[0]);
      ArgTokensSolid(args[1..]);
    }
  }

  lemma {:induction false} FlagTokensSolid(flags: seq<Entry<Option<string>>>)
    requires CleanFlags(flags)
    ensures forall i :: 0 <= i < |FlagTokens(flags)| ==> RawSolid(FlagTokens(flags)[i]) && OneLine(FlagTokens(flags)[i])
    decreases |flags|
  {
    hide RawSolid, OneLine, FlagToken, CleanName;
    if flags != [] {
      FlagSolid(flags[0]);
      FlagTokensSolid(flags[1..]);
    }
  }

  // -------------------------------------------------------------- trimming

  lemma {:induction false} TrimAppend(s: string, w: string)
    requires AllWhitespace(w)
    ensures TrimEnd(s + w) == TrimEnd(s)
    decreases |w|
  {
    if w == [] {
      assert s + w == s;
    } else {
      var k := |w| - 1;
      assert (s + w)[..|s + w| - 1] == s + w[..k] && (s + w)[|s + w| - 1] == w[k];
      TrimAppend(s, w[..k]);
    }
  }

  /** Dropping newlines first makes no difference to trimming. */
  lemma {:induction false} NewlinesTrimmed(s: string)
    ensures TrimEnd(DropNewlines(s)) == TrimEnd(s)
    ensures DropNewlines(s) <= s
    ensures s != [] && !IsWhitespace(s[0]) ==> DropNewlines(s) != []
    decreases |s|
  {
    if s != [] && s[|s|-1] == '\n' {
      NewlinesTrimmed(s[..|s|-1]);
    }
  }

  lemma PrimitiveText(p: string)
    requires ValidPrimitive(p)
    ensures OneLine(p) && RawSolid(p) && !IsWhitespace(p[0]) && !IsWhitespace(p[|p|-1])
  {
    RawScanPlain(p, false);
  }

  lemma TrimmedLine(r: Request)
    requires ValidPrimitive(r.primitive)
    ensures Trimmed(Encode(r)) == TrimEnd(Body(r))
    ensures Body(r) != [] && !IsWhitespace(Body(r)[0])
  {
    PrimitiveText(r.primitive);
    hide ValidPrimitive, RawSolid;
    var line := Encode(r);
    assert line[0] == r.primitive[0];
    NewlinesTrimmed(line);
    var d := DropNewlines(line);
    assert d[0] == line[0];
    assert TrimFront(d) == d;
    TrimAppend(Body(r), ['\n']);
  }

  /** White space that the escaping leaves as it is and the splitter does not quote. */
  predicate IsLoose(c: char) { IsWhitespace(c) && !IsSpecial(c) && c != ' ' }

  /** Printed last and bare, this value loses its end to the trim. */
  predicate EndsLoose(v: string) { v != [] && ' ' !in v && IsLoose(v[|v|-1]) }

  function DropLoose(v: string): (d: string)
    ensures |d| <= |v| && d == v[..|d|]
    ensures d != [] ==> !IsLoose(d[|d|-1])
    ensures v != [] && IsLoose(v[|v|-1]) ==> |d| < |v|
  {
    if v != [] && IsLoose(v[|v|-1]) then DropLoose(v[..|v|-1]) else v
  }

  lemma {:induction false} EscapedConcat(s: string, t: string)
    ensures Escaped(s + t) == Escaped(s) + Escaped(t)
    decreases |s|
  {
    if s == [] {
      assert s + t == t;
    } else {
      assert (s + t)[1..] == s[1..] + t;
      EscapedConcat(s[1..], t);
    }
  }

  lemma EscapedLast(v: string)
    requires v != []
    ensures Escaped(v) == Escaped(v[..|v|-1]) + EscapeChar(v[|v|-1])
    ensures !IsLoose(v[|v|-1]) && v[|v|-1] != ' ' ==> Escaped(v) != [] && !IsWhitespace(Escaped(v)[|Escaped(v)|-1])
  {
    var c := v[|v|-1];
    assert v == v[..|v|-1] + [c];
    EscapedConcat(v[..|v|-1], [c]);
    assert [c][1..] == [] && EscapeChar(c) + [] == EscapeChar(c);
    assert Escaped([c]) == EscapeChar(c);
  }

  /** Trimming after a bare value drops exactly its loose end. */
  lemma {:induction false} TrimLoose(pre: string, v: string)
    ensures TrimEnd(pre + Escaped(v)) == TrimEnd(pre + Escaped(DropLoose(v)))
    decreases |v|
  {
    if v != [] && IsLoose(v[|v|-1]) {
      var k := |v| - 1;
      EscapedLast(v);
      assert pre + Escaped(v) == (pre + Escaped(v[..k])) + [v[k]];
      TrimAppend(pre + Escaped(v[..k]), [v[k]]);
      TrimLoose(pre, v[..k]);
    }
  }

  lemma TrimNothing(s: string)
    requires s != [] && !IsWhitespace(s[|s|-1])
    ensures TrimEnd(s) == s
  {
  }

  lemma ValueEnd(v: string)
    requires !EndsLoose(v)
    ensures var p := QuoteArg(Escaped(v)); p != [] && !IsWhitespace(p[|p|-1])
  {
    EscapedText(v);
    if Escaped(v) != [] && !HasBlank(Escaped(v)) {
      assert v[|v|-1] in v;
      EscapedLast(v);
    }
  }

  // ------------------------------------------------------------ round trip

  /** The text of the last token that comes from an argument or a flag value. */
  function LastText(r: Request): Option<string>
  {
    if |r.flags| > 0 then r.flags[|r.flags|-1].value
    else if |r.args| > 0 then Some(r.args[|r.args|-1])
    else None
  }

  /** What a caller can check before sending a request. */
  predicate Sendable(r: Request)
  {
    && ValidPrimitive(r.primitive)
    && NoFlagArgs(r.args)
    && (LastText(r).Some? ==> !EndsLoose(LastText(r).value))
  }

  ghost function AllTokensOf(r: Request): seq<string> { ArgTokens(r.args) + FlagTokens(r.flags) }

  lemma TokensSolid(r: Request)
    requires CleanFlags(r.flags)
    ensures forall i :: 0 <= i < |AllTokensOf(r)| ==> RawSolid(AllTokensOf(r)[i]) && OneLine(AllTokensOf(r)[i])
  {
    hide RawSolid, OneLine, ArgTokens, FlagTokens, CleanFlags;
    ArgTokensSolid(r.args);
    FlagTokensSolid(r.flags);
  }

  lemma TokensRead(r: Request)
    requires CleanFlags(r.flags) && NoFlagArgs(r.args)
    ensures ParseTokens(AllTokensOf(r), Parts([], [])) == Ok(Parts(r.args, r.flags))
  {
    hide ParseTokens, NoFlagArgs, CleanFlags;
    assert [] + r.args == r.args && [] + r.flags == r.flags;
    ArgTokensRead(r.args, Parts([], []));
    FlagTokensRead([], r.flags, r.args);
    ParseTokensConcat(ArgTokens(r.args), FlagTokens(r.flags), Parts([], []));
  }

  lemma {:induction false} SpacedLast(p: seq<string>, t: string)
    ensures Spaced(p + [t]) == Spaced(p) + [' '] + t
  {
    SpacedConcat(p, [t]);
    assert [t][1..] == [];
    assert Spaced([t]) == [' '] + t;
  }

  lemma {:induction false} ArgTokensLast(args: seq<string>)
    requires args != []
    ensures ArgTokens(args) == ArgTokens(args[..|args|-1]) + [QuoteArg(Escaped(args[|args|-1]))]
    decreases |args|
  {
    hide QuoteArg, Escaped;
    if |args| > 1 {
      ArgTokensLast(args[1..]);
      assert args[1..][..|args|-2] == args[..|args|-1][1..];
    } else {
      assert args[1..] == [] && args[..0] == [];
    }
  }

  lemma {:induction false} FlagTokensLast(flags: seq<Entry<Option<string>>>)
    requires flags != []
    ensures FlagTokens(flags) == FlagTokens(flags[..|flags|-1]) + [FlagToken(flags[|flags|-1])]
    decreases |flags|
  {
    hide FlagToken;
    if |flags| > 1 {
      FlagTokensLast(flags[1..]);
      assert flags[1..][..|flags|-2] == flags[..|flags|-1][1..];
    } else {
      assert flags[1..] == [] && flags[..0] == [];
    }
  }

  ghost function TokensBeforeLast(r: Request): seq<string>
  {
    if r.flags != [] then ArgTokens(r.args) + FlagTokens(r.flags[..|r.flags|-1])
    else if r.args != [] then ArgTokens(r.args[..|r.args|-1])
    else []
  }

  ghost function LastToken(r: Request): string
  {
    if r.flags != [] then FlagToken(r.flags[|r.flags|-1])
    else if r.args != [] then QuoteArg(Escaped(r.args[|r.args|-1]))
    else []
  }

  lemma TokensSplit(r: Request)
    requires r.args != [] || r.flags != []
    ensures AllTokensOf(r) == TokensBeforeLast(r) + [LastToken(r)]
    ensures Body(r) == r.primitive + Spaced(TokensBeforeLast(r)) + [' '] + LastToken(r)
  {
    hide Spaced, QuoteArg, Escaped, FlagToken;
    if r.flags != [] {
      FlagTokensLast(r.flags);
    } else {
      ArgTokensLast(r.args);
    }
    SpacedLast(TokensBeforeLast(r), LastToken(r));
    Append(r.primitive, Spaced(TokensBeforeLast(r)), [' '] + LastToken(r));
    Append(r.primitive + Spaced(TokensBeforeLast(r)), [' '], LastToken(r));
    Append(Spaced(TokensBeforeLast(r)), [' '], LastToken(r));
  }

  /** Nothing is trimmed when the last value does not end loose. */
  lemma BodyUntouched(r: Request)
    requires ValidPrimitive(r.primitive) && CleanFlags(r.flags)
    requires LastText(r).Some? ==> !EndsLoose(LastText(r).value)
    ensures TrimEnd(Body(r)) == Body(r)
  {
    PrimitiveText(r.primitive);
    if r.args == [] && r.flags == [] {
      assert AllTokensOf(r) == [] && r.primitive + [] == r.primitive;
      assert Body(r) == r.primitive;
    } else {
      hide Body, ValidPrimitive, EndsLoose, RawSolid, IsWhitespace, CleanName, QuoteArg;
      TokensSplit(r);
      LastTokenEnd(r);
      var t := LastToken(r);
      assert Body(r)[|Body(r)|-1] == t[|t|-1];
    }
  }

  lemma LastTokenEnd(r: Request)
    requires CleanFlags(r.flags) && (r.args != [] || r.flags != [])
    requires LastText(r).Some? ==> !EndsLoose(LastText(r).value)
    ensures var t := LastToken(r); t != [] && !IsWhitespace(t[|t|-1])
  {
    hide EndsLoose, QuoteArg, IsWhitespace;
    if r.flags != [] {
      var f := r.flags[|r.flags|-1];
      FlagTokenIs(f);
      if f.value.Some? {
        ValueEnd(f.value.value);
      } else {
        assert CleanName(f.key);
      }
    } else {
      ValueEnd(r.args[|r.args|-1]);
    }
  }

  lemma RoundTripHolds(r: Request)
    requires CleanFlags(r.flags) && Sendable(r)
    ensures Parse(Encode(r)) == Ok(r)
  {
    hide CleanFlags, EndsLoose, NoFlagArgs, ValidPrimitive, Trimmed, RawTokens, ParseTokens, Encode, Spaced;
    TrimmedLine(r);
    BodyUntouched(r);
    TokensSolid(r);
    TokensRead(r);
    PrimitiveText(r.primitive);
    RawLine(r.primitive, AllTokensOf(r));
    assert ([r.primitive] + AllTokensOf(r))[1..] == AllTokensOf(r);
  }

  lemma ParseShape(r: Request, text: string)
    requires ParseTrimmed(text) == Ok(r)
    ensures text != [] && RawTokens(text) != [] && RawTokens(text)[0] == r.primitive
    ensures ParseTokens(RawTokens(text)[1..], Parts([], [])) == Ok(Parts(r.args, r.flags))
  {
  }

  /** Untrimmed, an argument that reads as a flag is missing from the result. */
  lemma FlagArgLost(r: Request)
    requires CleanFlags(r.flags) && ValidPrimitive(r.primitive)
    requires ParseTrimmed(Body(r)) == Ok(r)
    ensures NoFlagArgs(r.args)
  {
    hide RawTokens, ParseTokens, ParseTrimmed, Spaced, RawSolid, CleanFlags;
    ParseShape(r, Body(r));
    TokensSolid(r);
    PrimitiveText(r.primitive);
    RawLine(r.primitive, AllTokensOf(r));
    assert ([r.primitive] + AllTokensOf(r))[1..] == AllTokensOf(r);
    ArgsCount(AllTokensOf(r), Parts([], []));
    PlainCountConcat(ArgTokens(r.args), FlagTokens(r.flags));
    PlainArgs(r.args);
    PlainFlags(r.flags);
  }

  /** The line with a different last token, still split token by token. */
  lemma LastTokenReplaced(r: Request, tok: string)
    requires CleanFlags(r.flags) && ValidPrimitive(r.primitive) && (r.args != [] || r.flags != [])
    requires RawSolid(tok)
    ensures RawTokens(r.primitive + Spaced(TokensBeforeLast(r)) + [' '] + tok)
            == [r.primitive] + (TokensBeforeLast(r) + [tok])
    ensures RawTokens(r.primitive + Spaced(TokensBeforeLast(r))) == [r.primitive] + TokensBeforeLast(r)
  {
    hide RawTokens, Spaced, RawSolid, CleanFlags, LastToken, AllTokensOf;
    TokensSolid(r);
    TokensSplit(r);
    PrimitiveText(r.primitive);
    var before := TokensBeforeLast(r);
    forall i | 0 <= i < |before| ensures RawSolid(before[i]) {
      assert AllTokensOf(r)[i] == before[i];
    }
    RawLine(r.primitive, before);
    RawLine(r.primitive, before + [tok]);
    SpacedLast(before, tok);
    Append(r.primitive, Spaced(before), [' '] + tok);
    Append(r.primitive + Spaced(before), [' '], tok);
    Append(Spaced(before), [' '], tok);
  }

  lemma LooseCut(v: string)
    requires EndsLoose(v)
    ensures var d := DropLoose(v);
            && |d| < |v| && ' ' !in d
            && (d != [] ==> Escaped(d) != [] && !IsWhitespace(Escaped(d)[|Escaped(d)|-1]))
            && RawScan(Escaped(d), false) == Some(false)
            && Unescaped(StripQuotes(Escaped(d))) == d
    ensures QuoteArg(Escaped(v)) == Escaped(v)
  {
    var d := DropLoose(v);
    hide Escaped, Unescaped, RawScan, IsWhitespace, HasBlank, DropLoose;
    EscapedText(v);
    EscapedText(d);
    RawScanEscaped(d, false);
    UnescapeInvertsEscape(d);
    if d != [] {
      assert d[|d|-1] in v;
      EscapedLast(d);
    }
  }

  /** A flag value that ends loose comes back shorter. */
  lemma LooseFlagLost(r: Request)
    requires CleanFlags(r.flags) && ValidPrimitive(r.primitive)
    requires r.flags != [] && LastText(r).Some? && EndsLoose(LastText(r).value)
    ensures ParseTrimmed(TrimEnd(Body(r))) != Ok(r)
  {
    hide *;
    var f, before := FlagOf(r), TokensBeforeLast(r);
    var v := f.value.value;
    var d := DropLoose(v);
    var front := r.primitive + Spaced(before) + [' '];
    LooseCut(v);
    TokensSplit(r);
    LooseFlagText(r, front);
    var tok := "--" + f.key + "=" + Escaped(d);
    LooseFlagToken(f.key, d);
    LastTokenReplaced(r, tok);
    var text := front + tok;
    if ParseTrimmed(text) == Ok(r) {
      ParseShape(r, text);
      assert ([r.primitive] + (before + [tok]))[1..] == before + [tok];
      LastFlagWins(before, tok, f.key, d, Parts(r.args, r.flags));
      LookupEntry(r.flags, |r.flags| - 1);
    }
  }

  ghost function FlagOf(r: Request): (f: Entry<Option<string>>)
    requires r.flags != [] && LastText(r).Some?
    ensures f == r.flags[|r.flags|-1] && f.value == LastText(r)
    ensures CleanFlags(r.flags) ==> CleanName(f.key)
  {
    r.flags[|r.flags|-1]
  }

  lemma LooseFlagText(r: Request, front: string)
    requires CleanFlags(r.flags) && r.flags != [] && LastText(r).Some? && EndsLoose(LastText(r).value)
    requires Body(r) == front + LastToken(r)
    ensures var f := FlagOf(r);
            TrimEnd(Body(r)) == front + ("--" + f.key + "=" + Escaped(DropLoose(f.value.value)))
  {
    hide EndsLoose, Escaped, QuoteArg, Body, IsWhitespace;
    var f := FlagOf(r);
    var v := f.value.value;
    LooseCut(v);
    FlagTokenIs(f);
    var pre := front + ("--" + f.key + "=");
    Append(front, "--" + f.key + "=", Escaped(v));
    assert Body(r) == pre + Escaped(v);
    TrimLoose(pre, v);
    var cut := pre + Escaped(DropLoose(v));
    Append(front, "--" + f.key + "=", Escaped(DropLoose(v)));
    assert pre[|pre|-1] == '=' && !IsWhitespace('=') by { PlainEquals(); }
    assert !IsWhitespace(cut[|cut|-1]) by {
      if DropLoose(v) == [] { EscapedText(DropLoose(v)); }
    }
    TrimNothing(cut);
  }

  lemma PlainEquals()
    ensures !IsWhitespace('=')
  {
  }

  lemma LooseFlagToken(k: string, d: string)
    requires ' ' !in d
    requires CleanName(k)
    ensures RawSolid("--" + k + "=" + Escaped(d))
  {
    RawScanEscaped(d, false);
    RawScanPlain("--" + k + "=", false);
    RawScanConcat("--" + k + "=", Escaped(d), false);
  }

  lemma LastFlagWins(before: seq<string>, tok: string, k: string, d: string, parts: Parts)
    requires CleanName(k) && tok == "--" + k + "=" + Escaped(d)
    requires Unescaped(StripQuotes(Escaped(d))) == d
    requires ParseTokens(before + [tok], Parts([], [])) == Ok(parts)
    ensures Lookup(parts.flags, k) == Some(Some(d))
  {
    hide CleanName, Insert, Lookup, Escaped;
    ParseTokensConcat(before, [tok], Parts([], []));
    var mid := ParseTokens(before, Parts([], [])).value;
    assert [tok][1..] == [] && StartsFlag(tok);
    assert tok[2..] == k + ['='] + Escaped(d);
    NameFacts(k);
    FlagValueRead(k, Escaped(d), mid.flags);
    LookupInserted(mid.flags, k, Some(d));
  }

  /** An argument that ends loose comes back shorter or not at all. */
  lemma LooseArgLost(r: Request)
    requires ValidPrimitive(r.primitive) && CleanFlags(r.flags)
    requires r.flags == [] && LastText(r).Some? && EndsLoose(LastText(r).value)
    ensures ParseTrimmed(TrimEnd(Body(r))) != Ok(r)
  {
    hide *;
    LastArgIs(r);
    var front, v := r.primitive + Spaced(TokensBeforeLast(r)), r.args[|r.args|-1];
    LooseCut(v);
    TokensSplit(r);
    TrimLoose(front + [' '], v);
    var text := TrimEnd(Body(r));
    if ParseTrimmed(text) == Ok(r) {
      ParseShape(r, text);
      if DropLoose(v) == [] { ArgVanishes(r, front, text); } else { ArgShrinks(r, front, text); }
    }
  }

  lemma LastArgIs(r: Request)
    requires r.flags == [] && LastText(r).Some?
    ensures r.args != [] && LastText(r) == Some(r.args[|r.args|-1])
    ensures LastToken(r) == QuoteArg(Escaped(r.args[|r.args|-1]))
    ensures PlainCount(TokensBeforeLast(r)) <= |TokensBeforeLast(r)| < |r.args|
  {
    PlainArgs(r.args[..|r.args|-1]);
  }

  lemma ArgVanishes(r: Request, front: string, text: string)
    requires ValidPrimitive(r.primitive) && CleanFlags(r.flags) && r.flags == [] && r.args != []
    requires front == r.primitive + Spaced(TokensBeforeLast(r))
    requires |TokensBeforeLast(r)| < |r.args| && DropLoose(r.args[|r.args|-1]) == []
    requires text == TrimEnd(front + [' '] + Escaped(DropLoose(r.args[|r.args|-1]))) && RawTokens(text) != []
    ensures ParseTokens(RawTokens(text)[1..], Parts([], [])) != Ok(Parts(r.args, r.flags))
  {
    hide *;
    EscapedText([]);
    assert (front + [' ']) + [] == front + [' '];
    BlankTrimmed(front);
    XSolid();
    LastTokenReplaced(r, "x");
    PrefixTokens(front, |text|);
    if ParseTokens(RawTokens(text)[1..], Parts([], [])) == Ok(Parts(r.args, r.flags)) {
      NoMoreArgsThanTokens(RawTokens(text)[1..], Parts(r.args, r.flags));
    }
  }

  lemma ArgShrinks(r: Request, front: string, text: string)
    requires ValidPrimitive(r.primitive) && CleanFlags(r.flags) && r.flags == [] && r.args != []
    requires front == r.primitive + Spaced(TokensBeforeLast(r))
    requires PlainCount(TokensBeforeLast(r)) < |r.args|
    requires EndsLoose(r.args[|r.args|-1]) && DropLoose(r.args[|r.args|-1]) != []
    requires text == TrimEnd(front + [' '] + Escaped(DropLoose(r.args[|r.args|-1]))) && RawTokens(text) != []
    ensures ParseTokens(RawTokens(text)[1..], Parts([], [])) != Ok(Parts(r.args, r.flags))
  {
    hide *;
    var v := r.args[|r.args|-1];
    var before, d := TokensBeforeLast(r), DropLoose(v);
    LooseCut(v);
    DroppedToken(d);
    LastTokenReplaced(r, Escaped(d));
    TrimNothing(front + [' '] + Escaped(d));
    assert ([r.primitive] + (before + [Escaped(d)]))[1..] == before + [Escaped(d)];
    if ParseTokens(RawTokens(text)[1..], Parts([], [])) == Ok(Parts(r.args, r.flags)) {
      LastArgShort(before, d, Parts(r.args, r.flags));
    }
  }

  lemma XSolid()
    ensures RawSolid("x")
  {
    assert "x"[1..] == [];
  }

  lemma BlankTrimmed(front: string)
    ensures TrimEnd(front + [' ']) == TrimEnd(front)
  {
    TrimAppend(front, [' ']);
  }

  lemma DroppedToken(d: string)
    requires d != [] && ' ' !in d
    ensures RawSolid(Escaped(d))
  {
    EscapedText(d);
    RawScanEscaped(d, false);
  }

  lemma NoMoreArgsThanTokens(tokens: seq<string>, parts: Parts)
    requires ParseTokens(tokens, Parts([], [])) == Ok(parts)
    ensures |parts.args| <= |tokens|
  {
    ArgsCount(tokens, Parts([], []));
    PlainCountConcat(tokens, []);
  }

  lemma LastArgShort(before: seq<string>, d: string, parts: Parts)
    requires ParseTokens(before + [Escaped(d)], Parts([], [])) == Ok(parts)
    requires Unescaped(StripQuotes(Escaped(d))) == d
    ensures |parts.args| <= PlainCount(before) || parts.args[|parts.args|-1] == d
  {
    hide Escaped, Unescaped, StripQuotes;
    var tok := Escaped(d);
    ParseTokensConcat(before, [tok], Parts([], []));
    var mid := ParseTokens(before, Parts([], [])).value;
    ArgsCount(before, Parts([], []));
    assert [tok][1..] == [];
    if !StartsFlag(tok) {
      assert ParseToken(tok, mid) == Ok(mid.(args := mid.args + [d]));
    }
  }

  lemma RoundTripNeeds(r: Request)
    requires CleanFlags(r.flags) && Parse(Encode(r)) == Ok(r)
    ensures Sendable(r)
  {
    hide CleanFlags, EndsLoose, NoFlagArgs, RawTokens, ParseTokens, Encode, Body, ValidPrimitive;
    assert ValidPrimitive(r.primitive);
    TrimmedLine(r);
    hide Parse, ParseTrimmed;
    assert ParseTrimmed(TrimEnd(Body(r))) == Ok(r);
    if LastText(r).Some? && EndsLoose(LastText(r).value) {
      if r.flags != [] { LooseFlagLost(r); } else { LooseArgLost(r); }
    } else {
      BodyUntouched(r);
      FlagArgLost(r);
    }
  }

  // ------------------------------------------------------------- what is refused

  /** Lower-case letters, digits and underscores. */
  predicate PrimitiveName(s: string)
  {
    s != [] && forall i :: 0 <= i < |s| ==> 'a' <= s[i] <= 'z' || '0' <= s[i] <= '9' || s[i] == '_'
  }

  /** Two dashes and no name after them. */
  predicate NamelessFlag(t: string) { t == "--" || (|t| >= 3 && t[..3] == "--=") }

  /** WHAT IS REFUSED. Whatever the line, the parser refuses it exactly when nothing is left of
      it, its first token is not a primitive name, or a later one is a flag without a name. */
  lemma RefusedExactly(line: string)
    ensures var tokens := RawTokens(Trimmed(line));
            Parse(line).Err?
            <==> || Trimmed(line) == [] || tokens == [] || !PrimitiveName(tokens[0])
                 || exists i :: 1 <= i < |tokens| && NamelessFlag(tokens[i])
    ensures Parse(line).Ok? ==> Parse(line).value.primitive == RawTokens(Trimmed(line))[0]
  {
    hide RawTokens, Trimmed, NamelessFlag;
    var tokens := RawTokens(Trimmed(line));
    if tokens != [] {
      TokensRefused(tokens[1..], Parts([], []));
      assert forall i :: 1 <= i < |tokens| ==> tokens[i] == tokens[1..][i-1];
      assert forall i :: 0 <= i < |tokens[1..]| ==> tokens[1..][i] == tokens[i+1];
    }
  }

  lemma {:induction false} TokensRefused(tokens: seq<string>, parts: Parts)
    ensures ParseTokens(tokens, parts).Err? <==> exists i :: 0 <= i < |tokens| && NamelessFlag(tokens[i])
    decreases |tokens|
  {
    hide ParseToken, NamelessFlag;
    if tokens != [] {
      TokenRefused(tokens[0], parts);
      var next := ParseToken(tokens[0], parts);
      if next.Ok? {
        TokensRefused(tokens[1..], next.value);
        assert forall i :: 1 <= i < |tokens| ==> tokens[i] == tokens[1..][i-1];
        assert forall i :: 0 <= i < |tokens[1..]| ==> tokens[1..][i] == tokens[i+1];
      }
    }
  }

  lemma TokenRefused(t: string, parts: Parts)
    ensures ParseToken(t, parts).Err? <==> NamelessFlag(t)
    ensures ParseToken(t, parts).Ok? && !(|t| >= 2 && t[..2] == "--") ==>
              ParseToken(t, parts).value == parts.(args := parts.args + [Unescaped(StripQuotes(t))])
    ensures ParseToken(t, parts).Ok? && |t| >= 2 && t[..2] == "--" ==> ParseToken(t, parts).value.args == parts.args
  {
    hide Insert, Unescaped, StripQuotes;
    if |t| >= 2 && t[..2] == "--" {
      assert t[0] == t[..2][0] && t[1] == t[..2][1];
      var rest := t[2..];
      if rest != [] {
        FirstEquals(rest);
        assert t[..3] == t[..2] + [rest[0]];
      } else {
        assert t == t[..2];
      }
    }
  }

  lemma FirstEquals(s: string)
    requires s != []
    ensures IndexOf(s, '=') == 0 <==> s[0] == '='
  {
  }

  /** A pair no escape writes is kept as it is, and so is a backslash at the end. */
  lemma UnknownPairKept(c: char, s: string)
    requires c !in {'\\', '"', 'n', 'r', 't'}
    ensures Unescaped(['\\', c] + s) == ['\\', c] + Unescaped(s)
    ensures Unescaped(['\\']) == ['\\']
  {
    assert (['\\', c] + s)[2..] == s;
  }

  /** A request line reads back as the same request exactly when it is sendable. */
  lemma RequestRoundTrip(r: Request)
    requires CleanFlags(r.flags)
    ensures Parse(Encode(r)) == Ok(r) <==> Sendable(r)
  {
    hide CleanFlags, Sendable, Parse, Encode;
    if Sendable(r) { RoundTripHolds(r); }
    if Parse(Encode(r)) == Ok(r) { RoundTripNeeds(r); }
  }

  /** Whatever the arguments and flag values hold, the line ends at its one newline. */
  lemma EncodeIsOneLine(r: Request)
    requires CleanFlags(r.flags) && OneLine(r.primitive)
    ensures Encode(r) == Body(r) + ['\n'] && OneLine(Body(r))
  {
    TokensSolid(r);
    SpacedOneLine(AllTokensOf(r));
  }

  /** So two sendable requests never share a line. */
  lemma EncodeInjective(a: Request, b: Request)
    requires CleanFlags(a.flags) && CleanFlags(b.flags) && Sendable(a) && Sendable(b)
    requires Encode(a) == Encode(b)
    ensures a == b
  {
    hide CleanFlags, Sendable, Encode, Parse;
    RequestRoundTrip(a);
    RequestRoundTrip(b);
  }
}
