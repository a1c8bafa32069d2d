/** Rewriting one `[mcp_servers.<name>]` section of a configuration file
    (crates/vs-cli/src/skill_install.rs). */
module TomlSections {

  import opened Text
  import opened Requests
  import RoundTrip = RequestRoundTrip

  // --------------------------------------------------------------- rendering

  /** A basic string: quoted, with the characters escaped that would break it. */
  function TomlString(s: string): string { ['"'] + Escaped(s) + ['"'] }

  function ArgList(args: seq<string>): string
  {
    if args == [] then []
    else if |args| == 1 then TomlString(args[0])
    else TomlString(args[0]) + ", " + ArgList(args[1..])
  }

  function Header(name: string): string { "[mcp_servers." + name + "]" }

  function SectionLines(header: string, command: string, args: seq<string>): seq<string>
  {
    [header, "command = " + TomlString(command)]
    + if args == [] then [] else ["args = [" + ArgList(args) + "]"]
  }

  method RenderTomlString(s: string) returns (out: string)
    ensures out == TomlString(s)
  {
    out := "\"";
    for i := 0 to |s|
      invariant out + Escaped(s[i..]) == ['"'] + Escaped(s)
    {
      assert s[i..][0] == s[i] && s[i..][1..] == s[i+1..];
      Append(out, EscapeChar(s[i]), Escaped(s[i+1..]));
      match s[i]
      case '"' => out := out + "\\\"";
      case '\\' => out := out + "\\\\";
      case '\n' => out := out + "\\n";
      case '\r' => out := out + "\\r";
      case '\t' => out := out + "\\t";
      case c => out := out + [c];
    }
    assert out + [] == out;
    out := out + "\"";
  }

  method RenderArgs(args: seq<string>) returns (out: string)
    ensures out == ArgList(args)
  {
    hide TomlString;
    out := "";
    for i := 0 to |args|
      invariant out + (if i == 0 || i == |args| then "" else ", ") + ArgList(args[i..]) == ArgList(args)
    {
      ArgListFrom(args, i);
      if i > 0 { out := out + ", "; }
      var a := RenderTomlString(args[i]);
      ghost var rest := ", " + ArgList(args[i+1..]);
      assert i + 1 < |args| ==> out + (a + rest) == (out + a) + rest by { Append(out, a, rest); }
      out := out + a;
    }
    assert args[|args|..] == [] && out + "" + [] == out;
  }

  method RenderSection(header: string, command: string, args: seq<string>) returns (out: string)
    ensures out == Unlines(SectionLines(header, command, args))
  {
    hide TomlString, ArgList, Unlines;
    var c := RenderTomlString(command);
    ghost var first, second := header, "command = " + TomlString(command);
    out := header + "\n";
    out := out + ("command = " + c) + "\n";
    TwoLines(first, second);
    if args != [] {
      var list := RenderArgs(args);
      out := out + ("args = [" + list + "]") + "\n";
      ThreeLines(first, second, "args = [" + list + "]");
    } else {
      assert [first, second] + [] == [first, second];
    }
  }

  lemma ArgListFrom(args: seq<string>, i: nat)
    requires i < |args|
    ensures ArgList(args[i..]) == if i + 1 == |args| then TomlString(args[i])
                                  else TomlString(args[i]) + ", " + ArgList(args[i+1..])
    ensures i + 1 == |args| ==> ArgList(args[i+1..]) == []
  {
    assert args[i..][0] == args[i] && args[i..][1..] == args[i+1..];
  }

  lemma TwoLines(a: string, b: string)
    ensures Unlines([a, b]) == a + "\n" + b + "\n"
  {
    assert [a, b][1..] == [b] && [b][1..] == [];
    assert (b + "\n") + [] == b + "\n";
    assert Unlines([b]) == b + "\n";
    Append(a + "\n", b, "\n");
  }

  lemma ThreeLines(a: string, b: string, c: string)
    ensures Unlines([a, b] + [c]) == a + "\n" + b + "\n" + c + "\n"
  {
    UnlinesConcat([a, b], [c]);
    TwoLines(a, b);
    assert [c][1..] == [] && (c + "\n") + [] == c + "\n";
    Append(a + "\n" + b + "\n", c, "\n");
  }

  // ----------------------------------------------------------------- editing

  predicate StartsSection(line: string) { TrimFront(line) != [] && TrimFront(line)[0] == '[' }

  predicate IsHeader(line: string, header: string) { StartsSection(line) && TrimEnd(TrimFront(line)) == header }

  /** Each target section replaced by `section`; `skip` inside an old one. */
  function Edited(lines: seq<string>, header: string, section: seq<string>, skip: bool): seq<string>
  {
    if lines == [] then []
    else if IsHeader(lines[0], header) then section + Edited(lines[1..], header, section, true)
    else if StartsSection(lines[0]) then [lines[0]] + Edited(lines[1..], header, section, false)
    else (if skip then [] else [lines[0]]) + Edited(lines[1..], header, section, skip)
  }

  predicate Found(lines: seq<string>, header: string) { exists i :: 0 <= i < |lines| && IsHeader(lines[i], header) }

  /** The file's lines afterwards: the section in place, or after a blank line at the end. */
  function Result(lines: seq<string>, header: string, section: seq<string>): seq<string>
  {
    if Found(lines, header) then Edited(lines, header, section, false)
    else (if lines == [] then [] else lines + [""]) + section
  }

  function Applied(body: string, name: string, command: string, args: seq<string>): string
  {
    Unlines(Result(Lines(body), Header(name), SectionLines(Header(name), command, args)))
  }

  method ApplyToml(body: string, name: string, command: string, args: seq<string>)
    returns (updated: string, changed: bool)
    ensures updated == Applied(body, name, command, args) && changed == (updated != body)
  {
    hide StartsSection, TrimEnd, SectionLines, Unlines;
    var header := Header(name);
    var newSection := RenderSection(header, command, args);
    ghost var section := SectionLines(header, command, args);
    var lines := Lines(body);
    var replaced, skip := false, false;
    updated := "";
    for i := 0 to |lines|
      invariant updated + Unlines(Edited(lines[i..], header, section, skip))
                == Unlines(Edited(lines, header, section, false))
      invariant replaced <==> exists j :: 0 <= j < i && IsHeader(lines[j], header)
    {
      var line := lines[i];
      EditedStep(lines[i..], header, section, skip, updated);
      assert lines[i..][0] == line && lines[i..][1..] == lines[i+1..];
      if StartsSection(line) {
        skip := false;
        if TrimEnd(TrimFront(line)) == header {
          updated := updated + newSection;
          replaced := true;
          skip := true;
          continue;
        }
      }
      if skip { continue; }
      updated := updated + line;
      updated := updated + "\n";
    }
    EditedEnd(lines[|lines|..], header, section, skip);
    assert updated + [] == updated;
    if !replaced {
      Untouched(lines, header, section);
      LinesText(lines);
      if updated != "" && updated[|updated|-1] != '\n' {
        updated := updated + "\n";
      }
      BlankAndSection(lines, section);
      if updated != "" {
        updated := updated + "\n";
      }
      updated := updated + newSection;
    }
    changed := updated != body;
  }

  lemma EditedStep(lines: seq<string>, header: string, section: seq<string>, skip: bool, out: string)
    requires lines != []
    ensures var line, rest := lines[0], lines[1..];
            out + Unlines(Edited(lines, header, section, skip))
            == if IsHeader(line, header) then (out + Unlines(section)) + Unlines(Edited(rest, header, section, true))
               else if StartsSection(line) then (out + line + "\n") + Unlines(Edited(rest, header, section, false))
               else if skip then out + Unlines(Edited(rest, header, section, true))
               else (out + line + "\n") + Unlines(Edited(rest, header, section, false))
  {
    hide StartsSection, TrimEnd;
    var line, rest := lines[0], lines[1..];
    if IsHeader(line, header) {
      UnlinesConcat(section, Edited(rest, header, section, true));
      Append(out, Unlines(section), Unlines(Edited(rest, header, section, true)));
    } else if StartsSection(line) || !skip {
      OneMoreLine(out, line, Edited(rest, header, section, false));
    } else {
      assert [] + Edited(rest, header, section, skip) == Edited(rest, header, section, skip);
    }
  }

  lemma OneMoreLine(out: string, line: string, rest: seq<string>)
    ensures out + Unlines([line] + rest) == (out + line + "\n") + Unlines(rest)
  {
    assert ([line] + rest)[1..] == rest;
    Append(out, line + "\n", Unlines(rest));
    Append(out, line, "\n");
  }

  lemma EditedEnd(lines: seq<string>, header: string, section: seq<string>, skip: bool)
    requires lines == []
    ensures Unlines(Edited(lines, header, section, skip)) == []
  {
  }

  lemma {:induction false} Untouched(lines: seq<string>, header: string, section: seq<string>)
    requires !Found(lines, header)
    ensures Edited(lines, header, section, false) == lines
    decreases |lines|
  {
    hide IsHeader, StartsSection;
    if lines != [] {
      assert !IsHeader(lines[0], header);
      forall i | 0 <= i < |lines[1..]| ensures !IsHeader(lines[1..][i], header) { assert lines[1..][i] == lines[i+1]; }
      Untouched(lines[1..], header, section);
      assert lines == [lines[0]] + lines[1..];
    }
  }

  lemma {:induction false} LinesText(lines: seq<string>)
    ensures Unlines(lines) == [] <==> lines == []
    ensures lines != [] ==> Unlines(lines)[|Unlines(lines)|-1] == '\n'
    decreases |lines|
  {
    if lines != [] { LinesText(lines[1..]); }
  }

  lemma BlankAndSection(lines: seq<string>, section: seq<string>)
    ensures Unlines([] + section) == Unlines(section)
    ensures Unlines(lines + [""] + section) == (Unlines(lines) + "\n") + Unlines(section)
  {
    assert [] + section == section;
    UnlinesConcat(lines + [""], section);
    UnlinesConcat(lines, [""]);
    assert [""][1..] == [] && Unlines([""]) == "\n";
  }

  // ------------------------------------------------------------------ results

  /** A section's lines: its header first, and no other section start after it. */
  predicate SectionShape(section: seq<string>, header: string)
  {
    && section != [] && IsHeader(section[0], header)
    && forall i :: 0 < i < |section| ==> !StartsSection(section[i])
  }

  /** The lines outside the target section, in order. */
  function Outside(lines: seq<string>, header: string): seq<string> { Edited(lines, header, [], false) }

  lemma RenderedShape(name: string, command: string, args: seq<string>)
    ensures SectionShape(SectionLines(Header(name), command, args), Header(name))
  {
    var h := Header(name);
    hide TomlString, ArgList;
    HeaderTrims(name);
    var section := SectionLines(h, command, args);
    assert section[1][0] == 'c' && !IsWhitespace('c') && TrimFront(section[1]) == section[1];
    if args != [] {
      assert section[2][0] == 'a' && !IsWhitespace('a') && TrimFront(section[2]) == section[2];
    }
  }

  lemma HeaderTrims(name: string)
    ensures IsHeader(Header(name), Header(name))
  {
    var h := Header(name);
    assert h[0] == '[' && h[|h|-1] == ']' && !IsWhitespace('[') && !IsWhitespace(']');
    assert TrimFront(h) == h && TrimEnd(h) == h;
  }

  /** Editing a part that holds no section start. */
  lemma {:induction false} BodyPassed(body: seq<string>, rest: seq<string>, header: string, section: seq<string>)
    requires forall i :: 0 <= i < |body| ==> !StartsSection(body[i])
    ensures Edited(body + rest, header, section, true) == Edited(rest, header, section, true)
    decreases |body|
  {
    hide StartsSection;
    if body == [] {
      assert body + rest == rest;
    } else {
      assert (body + rest)[1..] == body[1..] + rest;
      NotHeader(body[0], header);
      BodyPassed(body[1..], rest, header, section);
      assert [] + Edited(rest, header, section, true) == Edited(rest, header, section, true);
    }
  }

  lemma NotHeader(line: string, header: string)
    requires !StartsSection(line)
    ensures !IsHeader(line, header)
  {
  }

  /** Editing again, with any replacement, sees the section as one target. */
  lemma SectionAgain(section: seq<string>, rest: seq<string>, header: string, other: seq<string>, skip: bool)
    requires SectionShape(section, header)
    ensures Edited(section + rest, header, other, skip) == other + Edited(rest, header, other, true)
  {
    hide StartsSection, IsHeader;
    assert (section + rest)[0] == section[0] && (section + rest)[1..] == section[1..] + rest;
    forall i | 0 <= i < |section[1..]| ensures !StartsSection(section[1..][i]) {
      assert section[1..][i] == section[i+1];
    }
    BodyPassed(section[1..], rest, header, other);
  }

  /** A second edit, with any replacement, is that edit of the first lines. */
  lemma {:induction false} EditedAgain(lines: seq<string>, header: string, section: seq<string>, other: seq<string>,
                                       skip: bool)
    requires SectionShape(section, header)
    ensures Edited(Edited(lines, header, section, skip), header, other, skip) == Edited(lines, header, other, skip)
    decreases |lines|
  {
    hide StartsSection, IsHeader, SectionShape;
    if lines != [] {
      var line, rest := lines[0], lines[1..];
      if IsHeader(line, header) {
        EditedAgain(rest, header, section, other, true);
        SectionAgain(section, Edited(rest, header, section, true), header, other, skip);
      } else if StartsSection(line) {
        EditedAgain(rest, header, section, other, false);
        KeptLine(line, Edited(rest, header, section, false), header, other, skip);
      } else {
        EditedAgain(rest, header, section, other, skip);
        if skip {
          assert [] + Edited(rest, header, section, skip) == Edited(rest, header, section, skip);
          assert [] + Edited(rest, header, other, skip) == Edited(rest, header, other, skip);
        } else {
          KeptLine(line, Edited(rest, header, section, false), header, other, skip);
        }
      }
    }
  }

  lemma KeptLine(line: string, rest: seq<string>, header: string, other: seq<string>, skip: bool)
    requires !IsHeader(line, header) && (StartsSection(line) || !skip)
    ensures Edited([line] + rest, header, other, skip) == [line] + Edited(rest, header, other, false)
  {
    hide StartsSection, IsHeader;
    assert ([line] + rest)[1..] == rest;
  }

  /** Lines without a header pass through, and what follows is edited. */
  lemma {:induction false} NotFoundPasses(lines: seq<string>, more: seq<string>, header: string, other: seq<string>)
    requires !Found(lines, header)
    ensures Edited(lines + more, header, other, false) == lines + Edited(more, header, other, false)
    decreases |lines|
  {
    hide *;
    if lines == [] {
      assert lines + more == more && [] + Edited(more, header, other, false) == Edited(more, header, other, false);
    } else {
      var line, rest := lines[0], lines[1..];
      NotFoundParts(lines, header);
      NotFoundPasses(rest, more, header, other);
      KeptLine(line, rest + more, header, other, false);
      assert lines + more == [line] + (rest + more);
      assert lines + Edited(more, header, other, false) == [line] + (rest + Edited(more, header, other, false));
    }
  }

  lemma NotFoundParts(lines: seq<string>, header: string)
    requires !Found(lines, header) && lines != []
    ensures !IsHeader(lines[0], header) && !Found(lines[1..], header)
  {
    hide IsHeader;
    assert !IsHeader(lines[0], header);
    forall i | 0 <= i < |lines[1..]| ensures !IsHeader(lines[1..][i], header) { assert lines[1..][i] == lines[i+1]; }
  }

  lemma BlankLineKept(header: string)
    ensures !StartsSection("") && !IsHeader("", header)
  {
  }

  /** What the edit finds in its own result, with any replacement. */
  lemma ResultAgain(lines: seq<string>, header: string, section: seq<string>, other: seq<string>)
    requires SectionShape(section, header)
    ensures Found(Result(lines, header, section), header)
    ensures Edited(Result(lines, header, section), header, other, false)
            == if Found(lines, header) then Edited(lines, header, other, false)
               else (if lines == [] then [] else lines + [""]) + other
  {
    hide StartsSection, IsHeader, Edited;
    var r := Result(lines, header, section);
    if Found(lines, header) {
      EditedAgain(lines, header, section, other, false);
      FoundAfter(lines, header, section, false);
    } else {
      var front := if lines == [] then [] else lines + [""];
      BlankLineKept(header);
      assert !Found(front, header) by {
        assert forall i :: 0 <= i < |front| ==> front[i] == "" || (i < |lines| && front[i] == lines[i]);
      }
      NotFoundPasses(front, section, header, other);
      assert section + [] == section;
      SectionAgain(section, [], header, other, false);
      NothingEdited(header, other);
      assert other + [] == other;
      assert r[|front|] == section[0];
    }
  }

  lemma NothingEdited(header: string, other: seq<string>)
    ensures Edited([], header, other, true) == []
  {
  }

  lemma {:induction false} FoundAfter(lines: seq<string>, header: string, section: seq<string>, skip: bool)
    requires Found(lines, header) && SectionShape(section, header)
    ensures Found(Edited(lines, header, section, skip), header)
    decreases |lines|
  {
    hide StartsSection, IsHeader;
    var r := Edited(lines, header, section, skip);
    if IsHeader(lines[0], header) {
      assert r[0] == section[0];
    } else {
      var i :| 0 <= i < |lines| && IsHeader(lines[i], header);
      assert lines[1..][i-1] == lines[i];
      var next := if StartsSection(lines[0]) then false else skip;
      FoundAfter(lines[1..], header, section, next);
      var rest := Edited(lines[1..], header, section, next);
      var j :| 0 <= j < |rest| && IsHeader(rest[j], header);
      var kept := if StartsSection(lines[0]) || !skip then [lines[0]] else [];
      assert r == kept + rest && r[|kept| + j] == rest[j];
    }
  }

  /** WHAT A SECTION SAYS: the server's own header, and a command and arguments that read back
      as the texts they were rendered from. */
  lemma SectionSays(name: string, command: string, args: seq<string>, s: string)
    ensures var lines := SectionLines(Header(name), command, args);
            && lines[0] == "[mcp_servers." + name + "]"
            && lines[1] == "command = " + TomlString(command)
            && (args == [] ==> |lines| == 2)
            && (args != [] ==> |lines| == 3 && lines[2] == "args = [" + ArgList(args) + "]")
    ensures var t := TomlString(s); t[0] == '"' == t[|t|-1] && Unescaped(t[1..|t|-1]) == s
  {
    RoundTrip.UnescapeInvertsEscape(s);
    var t := TomlString(s);
    assert t[1..|t|-1] == Escaped(s);
  }

  lemma {:induction false} FrontTrimmed(s: string) returns (pre: string)
    ensures AllWhitespace(pre) && s == pre + TrimFront(s)
    ensures TrimFront(s) != [] ==> !IsWhitespace(TrimFront(s)[0])
    decreases |s|
  {
    if s != [] && IsWhitespace(s[0]) {
      var rest := FrontTrimmed(s[1..]);
      pre := [s[0]] + rest;
    } else {
      pre := [];
    }
  }

  lemma {:induction false} EndTrimmed(s: string) returns (post: string)
    ensures AllWhitespace(post) && s == TrimEnd(s) + post
    decreases |s|
  {
    if s != [] && IsWhitespace(s[|s|-1]) {
      var rest := EndTrimmed(s[..|s|-1]);
      post := rest + [s[|s|-1]];
    } else {
      post := [];
    }
  }

  lemma {:induction false} FrontGone(pre: string, rest: string)
    requires AllWhitespace(pre) && (rest != [] ==> !IsWhitespace(rest[0]))
    ensures TrimFront(pre + rest) == rest
    decreases |pre|
  {
    hide IsWhitespace;
    if pre == [] {
      assert pre + rest == rest;
    } else {
      assert (pre + rest)[1..] == pre[1..] + rest;
      FrontGone(pre[1..], rest);
    }
  }

  lemma {:induction false} EndGone(rest: string, post: string)
    requires AllWhitespace(post) && (rest != [] ==> !IsWhitespace(rest[|rest|-1]))
    ensures TrimEnd(rest + post) == rest
    decreases |post|
  {
    hide IsWhitespace;
    if post == [] {
      assert rest + post == rest;
    } else {
      var k := |post| - 1;
      assert (rest + post)[..|rest + post|-1] == rest + post[..k] && (rest + post)[|rest + post|-1] == post[k];
      EndGone(rest, post[..k]);
    }
  }

  /** WHICH LINES ARE A SERVER'S HEADER: the header alone on its line, white space around it or not. */
  lemma HeaderExact(line: string, name: string)
    ensures IsHeader(line, Header(name))
       <==> exists pre, post :: AllWhitespace(pre) && AllWhitespace(post) && line == pre + Header(name) + post
  {
    var h := Header(name);
    assert h[0] == '[' && h[|h|-1] == ']';
    forall pre, post | AllWhitespace(pre) && AllWhitespace(post) && line == pre + h + post
      ensures IsHeader(line, h)
    {
      assert pre + h + post == pre + (h + post) && (h + post)[0] == h[0];
      FrontGone(pre, h + post);
      EndGone(h, post);
    }
    if IsHeader(line, h) {
      var pre := FrontTrimmed(line);
      var post := EndTrimmed(TrimFront(line));
      assert line == pre + h + post;
    }
  }

  /** OTHER LINES SURVIVE. Outside the target section every line stays, in order; a blank
      one is added before a section that was not there. */
  lemma OutsideKept(lines: seq<string>, name: string, command: string, args: seq<string>)
    ensures var header, section := Header(name), SectionLines(Header(name), command, args);
            Outside(Result(lines, header, section), header)
            == if Found(lines, header) || lines == [] then Outside(lines, header) else lines + [""]
  {
    hide SectionLines, Edited, Found, StartsSection, TrimEnd;
    var header := Header(name);
    RenderedShape(name, command, args);
    ResultAgain(lines, header, SectionLines(header, command, args), []);
    if lines == [] {
      NoLinesOutside(header);
    } else if !Found(lines, header) {
      assert (lines + [""]) + [] == lines + [""];
    }
  }

  lemma NoLinesOutside(header: string)
    ensures Edited([], header, [], false) == []
  {
  }

  /** The lines of the target sections, headers included. */
  function Inside(lines: seq<string>, header: string, skip: bool): seq<string>
  {
    if lines == [] then []
    else if IsHeader(lines[0], header) then [lines[0]] + Inside(lines[1..], header, true)
    else if StartsSection(lines[0]) then Inside(lines[1..], header, false)
    else (if skip then [lines[0]] else []) + Inside(lines[1..], header, skip)
  }

  function Headers(lines: seq<string>, header: string): nat
  {
    if lines == [] then 0 else (if IsHeader(lines[0], header) then 1 else 0) + Headers(lines[1..], header)
  }

  function Times(section: seq<string>, n: nat): seq<string>
  {
    if n == 0 then [] else section + Times(section, n - 1)
  }

  lemma {:induction false} InsideBody(body: seq<string>, rest: seq<string>, header: string)
    requires forall i :: 0 <= i < |body| ==> !StartsSection(body[i])
    ensures Inside(body + rest, header, true) == body + Inside(rest, header, true)
    decreases |body|
  {
    hide StartsSection;
    if body == [] {
      assert body + rest == rest;
    } else {
      assert (body + rest)[1..] == body[1..] + rest;
      NotHeader(body[0], header);
      InsideBody(body[1..], rest, header);
      assert body == [body[0]] + body[1..];
    }
  }

  lemma InsideSection(section: seq<string>, rest: seq<string>, header: string, skip: bool)
    requires SectionShape(section, header)
    ensures Inside(section + rest, header, skip) == section + Inside(rest, header, true)
  {
    hide StartsSection, IsHeader;
    assert (section + rest)[1..] == section[1..] + rest;
    forall i | 0 <= i < |section[1..]| ensures !StartsSection(section[1..][i]) {
      assert section[1..][i] == section[i+1];
    }
    InsideBody(section[1..], rest, header);
    assert section == [section[0]] + section[1..];
  }

  /** THE SECTION IS THE RENDERED ONE. After the edit every target section reads exactly as
      rendered, as often as its header stood there before. */
  lemma {:induction false} InsideRendered(lines: seq<string>, header: string, section: seq<string>, skip: bool)
    requires SectionShape(section, header)
    ensures Inside(Edited(lines, header, section, skip), header, skip) == Times(section, Headers(lines, header))
    decreases |lines|
  {
    hide StartsSection, IsHeader, SectionShape;
    if lines != [] {
      var line, rest := lines[0], lines[1..];
      var next := if IsHeader(line, header) then true else if StartsSection(line) then false else skip;
      var tail := Edited(rest, header, section, next);
      InsideRendered(rest, header, section, next);
      if IsHeader(line, header) {
        InsideSection(section, tail, header, skip);
      } else if StartsSection(line) || !skip {
        assert ([line] + tail)[1..] == tail && [] + Inside(tail, header, next) == Inside(tail, header, next);
      } else {
        assert [] + tail == tail;
      }
    }
  }

  /** A section that was not there is there once afterwards. */
  lemma AddedOnce(lines: seq<string>, header: string, section: seq<string>)
    requires SectionShape(section, header) && !Found(lines, header)
    ensures Inside(Result(lines, header, section), header, false) == section
  {
    hide StartsSection, IsHeader, Edited, Inside;
    var front := if lines == [] then [] else lines + [""];
    BlankLineKept(header);
    assert !Found(front, header) by {
      assert forall i :: 0 <= i < |front| ==> front[i] == "" || (i < |lines| && front[i] == lines[i]);
    }
    NothingInside(front, section, header);
    InsideSection(section, [], header, false);
    assert section + [] == section;
    EmptyInside(header);
  }

  lemma EmptyInside(header: string)
    ensures Inside([], header, true) == []
  {
  }

  lemma {:induction false} NothingInside(lines: seq<string>, more: seq<string>, header: string)
    requires !Found(lines, header)
    ensures Inside(lines + more, header, false) == Inside(more, header, false)
    decreases |lines|
  {
    hide StartsSection, IsHeader;
    if lines == [] {
      assert lines + more == more;
    } else {
      assert !IsHeader(lines[0], header);
      forall i | 0 <= i < |lines[1..]| ensures !IsHeader(lines[1..][i], header) { assert lines[1..][i] == lines[i+1]; }
      assert (lines + more)[1..] == lines[1..] + more;
      NothingInside(lines[1..], more, header);
      assert [] + Inside(more, header, false) == Inside(more, header, false);
    }
  }

  // --------------------------------------------------------------- carriage returns

  predicate EndsReturn(line: string) { line != [] && line[|line|-1] == '\r' }

  function Chomped(lines: seq<string>): (r: seq<string>)
    ensures |r| == |lines| && forall i :: 0 <= i < |r| ==> r[i] == StripReturn(lines[i])
  {
    seq(|lines|, i requires 0 <= i < |lines| => StripReturn(lines[i]))
  }

  predicate NoNewlines(lines: seq<string>) { forall i :: 0 <= i < |lines| ==> '\n' !in lines[i] }

  lemma {:induction false} LinesReread(lines: seq<string>)
    requires NoNewlines(lines)
    ensures Lines(Unlines(lines)) == Chomped(lines)
    decreases |lines|
  {
    if lines != [] {
      var s, rest := Unlines(lines), Unlines(lines[1..]);
      IndexOfAfter(lines[0], '\n', rest);
      assert s[..|lines[0]|] == lines[0] && s[|lines[0]|+1..] == rest;
      LinesReread(lines[1..]);
      assert Chomped(lines) == [StripReturn(lines[0])] + Chomped(lines[1..]);
    }
  }

  lemma {:induction false} LinesHaveNone(s: string)
    ensures NoNewlines(Lines(s))
    decreases |s|
  {
    hide IndexOf;
    if s != [] {
      var i := IndexOf(s, '\n');
      if i < |s| { LinesHaveNone(s[i+1..]); }
    }
  }

  /** A carriage return at the end of a line does not change what the line is. */
  lemma ReturnIgnored(line: string, header: string)
    ensures StartsSection(StripReturn(line)) == StartsSection(line)
    ensures IsHeader(StripReturn(line), header) == IsHeader(line, header)
  {
    if EndsReturn(line) {
      var t := StripReturn(line);
      assert line == t + ['\r'];
      ReturnTrimmed(t);
    }
  }

  lemma {:induction false} ReturnTrimmed(t: string)
    ensures TrimFront(t + ['\r']) == if TrimFront(t) == [] then [] else TrimFront(t) + ['\r']
    ensures TrimEnd(TrimFront(t + ['\r'])) == TrimEnd(TrimFront(t))
    decreases |t|
  {
    if t == [] {
      assert t + ['\r'] == ['\r'] && ['\r'][1..] == [];
    } else if IsWhitespace(t[0]) {
      assert (t + ['\r'])[1..] == t[1..] + ['\r'];
      ReturnTrimmed(t[1..]);
    } else {
      var u := t + ['\r'];
      assert u[|u|-1] == '\r' && u[..|u|-1] == t;
    }
  }

  /** Editing the re-read lines is re-reading the edited ones. */
  lemma {:induction false} ChompedEdit(lines: seq<string>, header: string, section: seq<string>, skip: bool)
    requires Chomped(section) == section
    ensures Edited(Chomped(lines), header, section, skip) == Chomped(Edited(lines, header, section, skip))
    decreases |lines|
  {
    hide StartsSection, IsHeader, StripReturn;
    if lines != [] {
      var line, rest := lines[0], lines[1..];
      ReturnIgnored(line, header);
      assert Chomped(lines)[0] == StripReturn(line) && Chomped(lines)[1..] == Chomped(rest);
      var next := if IsHeader(line, header) then true else if StartsSection(line) then false else skip;
      ChompedEdit(rest, header, section, next);
      var front := if IsHeader(line, header) then section else if StartsSection(line) || !skip then [line] else [];
      assert Edited(lines, header, section, skip) == front + Edited(rest, header, section, next);
      ChompedConcat(front, Edited(rest, header, section, next));
      assert Chomped([line]) == [StripReturn(line)] && Chomped([]) == [];
    }
  }

  lemma ChompedConcat(a: seq<string>, b: seq<string>)
    ensures Chomped(a + b) == Chomped(a) + Chomped(b)
  {
    hide StripReturn;
  }

  lemma {:induction false} ChompedShorter(lines: seq<string>)
    ensures |Unlines(Chomped(lines))| <= |Unlines(lines)|
    ensures (exists i :: 0 <= i < |lines| && EndsReturn(lines[i])) ==> |Unlines(Chomped(lines))| < |Unlines(lines)|
    ensures (forall i :: 0 <= i < |lines| ==> !EndsReturn(lines[i])) ==> Chomped(lines) == lines
    decreases |lines|
  {
    if lines != [] {
      assert Chomped(lines)[1..] == Chomped(lines[1..]);
      ChompedShorter(lines[1..]);
      assert forall i :: 0 < i < |lines| ==> lines[i] == lines[1..][i-1];
    }
  }

  predicate HasReturn(lines: seq<string>) { exists i :: 0 <= i < |lines| && EndsReturn(lines[i]) }

  lemma HasReturnConcat(a: seq<string>, b: seq<string>)
    ensures HasReturn(a + b) <==> HasReturn(a) || HasReturn(b)
  {
    hide EndsReturn;
    var c := a + b;
    if HasReturn(a) {
      var i :| 0 <= i < |a| && EndsReturn(a[i]);
      assert c[i] == a[i];
    }
    if HasReturn(b) {
      var i :| 0 <= i < |b| && EndsReturn(b[i]);
      assert c[|a| + i] == b[i];
    }
  }

  lemma {:induction false} OutsideReturns(lines: seq<string>, header: string, section: seq<string>, skip: bool)
    requires !HasReturn(section)
    ensures HasReturn(Edited(lines, header, section, skip)) <==> HasReturn(Edited(lines, header, [], skip))
    decreases |lines|
  {
    hide StartsSection, IsHeader, HasReturn;
    if lines != [] {
      var line, rest := lines[0], lines[1..];
      var next := if IsHeader(line, header) then true else if StartsSection(line) then false else skip;
      OutsideReturns(rest, header, section, next);
      if IsHeader(line, header) {
        HasReturnConcat(section, Edited(rest, header, section, true));
        assert [] + Edited(rest, header, [], true) == Edited(rest, header, [], true);
      } else {
        var front := if StartsSection(line) || !skip then [line] else [];
        assert Edited(lines, header, section, skip) == front + Edited(rest, header, section, next);
        assert Edited(lines, header, [], skip) == front + Edited(rest, header, [], next);
        HasReturnConcat(front, Edited(rest, header, section, next));
        HasReturnConcat(front, Edited(rest, header, [], next));
      }
    }
  }

  lemma {:induction false} ArgListOneLine(args: seq<string>)
    ensures OneLine(ArgList(args))
    decreases |args|
  {
    hide Escaped;
    if args != [] {
      RoundTrip.EscapedText(args[0]);
      ArgListOneLine(args[1..]);
    }
  }

  lemma SectionOneLine(name: string, command: string, args: seq<string>)
    requires OneLine(name)
    ensures var section := SectionLines(Header(name), command, args);
            NoNewlines(section) && !HasReturn(section) && Chomped(section) == section
  {
    hide *;
    RoundTrip.EscapedText(command);
    ArgListOneLine(args);
    var h := Header(name);
    HeaderOneLine(name);
    CommandOneLine(command);
    ArgsOneLine(args);
    var section := SectionLines(h, command, args);
    SectionLinesAre(h, command, args);
    AllOneLine(section);
  }

  lemma SectionLinesAre(header: string, command: string, args: seq<string>)
    ensures SectionLines(header, command, args)
            == [header, "command = " + TomlString(command)]
               + if args == [] then [] else ["args = [" + ArgList(args) + "]"]
  {
  }

  lemma HeaderOneLine(name: string)
    requires OneLine(name)
    ensures OneLine(Header(name))
  {
  }

  lemma CommandOneLine(command: string)
    requires OneLine(Escaped(command))
    ensures OneLine("command = " + TomlString(command))
  {
    hide Escaped;
  }

  lemma ArgsOneLine(args: seq<string>)
    requires OneLine(ArgList(args))
    ensures OneLine("args = [" + ArgList(args) + "]")
  {
    hide ArgList;
  }

  lemma AllOneLine(lines: seq<string>)
    requires forall i :: 0 <= i < |lines| ==> OneLine(lines[i])
    ensures NoNewlines(lines) && !HasReturn(lines) && Chomped(lines) == lines
  {
    forall i | 0 <= i < |lines| ensures '\n' !in lines[i] && !EndsReturn(lines[i]) {
      assert OneLine(lines[i]);
    }
    hide EndsReturn, OneLine, StripReturn;
    ChompedShorter(lines);
  }

  lemma {:induction false} EditedNoNewlines(lines: seq<string>, header: string, section: seq<string>, skip: bool)
    requires NoNewlines(lines) && NoNewlines(section)
    ensures NoNewlines(Edited(lines, header, section, skip))
    decreases |lines|
  {
    hide StartsSection, IsHeader;
    if lines != [] {
      assert '\n' !in lines[0];
      var next := if IsHeader(lines[0], header) then true else if StartsSection(lines[0]) then false else skip;
      EditedNoNewlines(lines[1..], header, section, next);
    }
  }

  lemma FoundChomped(lines: seq<string>, header: string)
    ensures Found(Chomped(lines), header) <==> Found(lines, header)
  {
    hide StartsSection, IsHeader, StripReturn;
    forall i | 0 <= i < |lines| ensures IsHeader(Chomped(lines)[i], header) == IsHeader(lines[i], header) {
      ReturnIgnored(lines[i], header);
    }
  }

  /** Applying the edit to its own result only takes carriage returns off the line ends. */
  lemma SecondEdit(body: string, name: string, command: string, args: seq<string>)
    requires OneLine(name)
    ensures var section := SectionLines(Header(name), command, args);
            Applied(Applied(body, name, command, args), name, command, args)
            == Unlines(Chomped(Result(Lines(body), Header(name), section)))
  {
    hide SectionLines, Edited, Found, Unlines, Lines, Header;
    var h, section := Header(name), SectionLines(Header(name), command, args);
    var lines := Lines(body);
    var r := Result(lines, h, section);
    SectionOneLine(name, command, args);
    RenderedShape(name, command, args);
    LinesHaveNone(body);
    ResultNoNewlines(lines, h, section);
    LinesReread(r);
    ResultAgain(lines, h, section, section);
    FoundChomped(r, h);
    ChompedEdit(r, h, section, false);
  }

  lemma ResultNoNewlines(lines: seq<string>, header: string, section: seq<string>)
    requires NoNewlines(lines) && NoNewlines(section)
    ensures NoNewlines(Result(lines, header, section))
  {
    hide Edited, Found;
    EditedNoNewlines(lines, header, section, false);
  }

  lemma ResultReturns(lines: seq<string>, header: string, section: seq<string>)
    requires !HasReturn(section)
    ensures HasReturn(Result(lines, header, section)) <==> HasReturn(Outside(lines, header))
  {
    hide StartsSection, IsHeader, HasReturn, Edited;
    if Found(lines, header) {
      OutsideReturns(lines, header, section, false);
    } else {
      Untouched(lines, header, []);
      HasReturnConcat(if lines == [] then [] else lines + [""], section);
      HasReturnConcat(lines, [""]);
      NoReturn();
    }
  }

  lemma NoReturn()
    ensures !HasReturn([]) && !HasReturn([""])
  {
  }

  /** FIXED POINT. A second application changes nothing exactly when no line outside the
      target section still ends in a carriage return after the first reading. */
  lemma ApplyTwice(body: string, name: string, command: string, args: seq<string>)
    requires OneLine(name)
    ensures Applied(Applied(body, name, command, args), name, command, args) == Applied(body, name, command, args)
        <==> !HasReturn(Outside(Lines(body), Header(name)))
  {
    hide SectionLines, Result, Outside, Unlines, Lines, Header;
    var h, section := Header(name), SectionLines(Header(name), command, args);
    var r := Result(Lines(body), h, section);
    SecondEdit(body, name, command, args);
    SectionOneLine(name, command, args);
    ResultReturns(Lines(body), h, section);
    ChompedShorter(r);
  }

  lemma {:induction false} LinesWithoutReturns(body: string)
    requires '\r' !in body
    ensures forall i :: 0 <= i < |Lines(body)| ==> '\r' !in Lines(body)[i]
    decreases |body|
  {
    hide IndexOf;
    if body != [] {
      var i := IndexOf(body, '\n');
      if i < |body| { LinesWithoutReturns(body[i+1..]); }
    }
  }

  lemma {:induction false} OutsideAmong(lines: seq<string>, header: string, skip: bool)
    requires forall i :: 0 <= i < |lines| ==> '\r' !in lines[i]
    ensures !HasReturn(Edited(lines, header, [], skip))
    decreases |lines|
  {
    hide StartsSection, IsHeader;
    if lines != [] {
      assert '\r' !in lines[0];
      var next := if IsHeader(lines[0], header) then true else if StartsSection(lines[0]) then false else skip;
      OutsideAmong(lines[1..], header, next);
    }
  }

  /** So on text without carriage returns one application is always enough. */
  lemma ApplyTwiceClean(body: string, name: string, command: string, args: seq<string>)
    requires OneLine(name) && '\r' !in body
    ensures Applied(Applied(body, name, command, args), name, command, args) == Applied(body, name, command, args)
  {
    hide Applied, Lines;
    LinesWithoutReturns(body);
    OutsideAmong(Lines(body), Header(name), false);
    ApplyTwice(body, name, command, args);
  }
}
