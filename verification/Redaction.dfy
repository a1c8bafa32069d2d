/** Masking credentials in free text before it is logged (crates/vs-daemon/src/redact.rs). */
module Redaction {

  import opened Text

  // ------------------------------------------------------------ specification

  const KEYWORDS: seq<string> := ["bearer ", "authorization:", "x-api-key:", "secret", "password", "token"]

  function LowerChar(c: char): char { if 'A' <= c <= 'Z' then c - 'A' + 'a' else c }

  /** ASCII letters lowered, everything else as it is. */
  function Lower(s: string): (t: string)
    ensures |t| == |s| && forall i :: 0 <= i < |s| ==> t[i] == LowerChar(s[i])
  {
    seq(|s|, i requires 0 <= i < |s| => LowerChar(s[i]))
  }

  predicate StartsWith(s: string, k: string) { |s| >= |k| && Lower(s[..|k|]) == k }

  /** Length of the first keyword at the front of `s`, or 0. */
  function KeywordLen(keywords: seq<string>, s: string): (n: nat)
    ensures n <= |s|
  {
    if keywords == [] then 0
    else if StartsWith(s, keywords[0]) then |keywords[0]|
    else KeywordLen(keywords[1..], s)
  }

  function Keyword(s: string): (n: nat)
    ensures n <= |s|
  {
    KeywordLen(KEYWORDS, s)
  }

  predicate IsDelimiter(c: char) { c == '"' || c == '\'' || c == ';' || c == '\n' || c == '}' || c == ')' }

  /** How far a value reaches: to the first delimiter or the end. */
  function ValueLen(s: string): (n: nat)
    ensures n <= |s|
    ensures forall i :: 0 <= i < n ==> !IsDelimiter(s[i])
    ensures n < |s| ==> IsDelimiter(s[n])
  {
    if s == [] || IsDelimiter(s[0]) then 0 else 1 + ValueLen(s[1..])
  }

  const MASK: string := "***"

  function Redacted(s: string): string
    decreases |s|
  {
    if s == [] then []
    else
      var k := Keyword(s);
      if k == 0 then [s[0]] + Redacted(s[1..])
      else
        var v := ValueLen(s[k..]);
        s[..k] + MaskFor(v) + Redacted(s[k+v..])
  }

  function MaskFor(v: nat): string { if v > 0 then MASK else [] }

  /** The value after a keyword of length `k` is empty or already the mask. */
  predicate ValueMasked(s: string, k: nat)
    requires k <= |s|
  {
    var v := ValueLen(s[k..]);
    v == 0 || s[k..k+v] == MASK
  }

  /** What follows a keyword of length `k` and its value. */
  function AfterValue(s: string, k: nat): (rest: string)
    requires k <= |s|
    ensures |rest| <= |s| - k
  {
    s[k+ValueLen(s[k..])..]
  }

  /** Scanning finds nothing to mask: every keyword is followed by nothing or the mask. */
  predicate Masked(s: string)
    decreases |s|
  {
    s == [] || (
      var k := Keyword(s);
      if k == 0 then Masked(s[1..]) else ValueMasked(s, k) && Masked(AfterValue(s, k)))
  }

  /** No keyword anywhere, in any letter case. */
  predicate KeywordFree(s: string) { forall i :: 0 <= i < |s| ==> Keyword(s[i..]) == 0 }

  // --------------------------------------------------- the scanner, as it runs

  method RedactString(s: string) returns (out: string)
    ensures out == Redacted(s)
  {
    hide Keyword, ValueLen, Redacted;
    RedactedNothing([]);
    out := "";
    var i := 0;
    while i < |s|
      invariant 0 <= i <= |s|
      invariant out + Redacted(s[i..]) == Redacted(s)
    {
      ghost var tail := s[i..];
      var k := Keyword(s[i..]);
      if k > 0 {
        var after := i + k;
        var end := after + ValueLen(s[after..]);
        KeywordStep(tail, out);
        Slices(s, i, after, end);
        out := out + s[i..after];
        if end > after { out := out + MASK; }
        i := end;
        continue;
      }
      PlainStep(tail, out);
      assert tail[1..] == s[i+1..];
      out := out + [s[i]];
      i := i + 1;
    }
  }

  lemma Slices(s: string, i: nat, after: nat, end: nat)
    requires i <= after <= end <= |s|
    ensures s[i..][..after-i] == s[i..after] && s[i..][after-i..] == s[after..] && s[after..][end-after..] == s[end..]
  {
  }

  lemma KeywordStep(s: string, out: string)
    requires Keyword(s) > 0
    ensures var k := Keyword(s);
            var v := ValueLen(s[k..]);
            out + Redacted(s) == (if v > 0 then (out + s[..k]) + MASK else out + s[..k]) + Redacted(s[k..][v..])
  {
    RedactedKeyword(s);
    hide Keyword, ValueLen, Redacted;
    var k := Keyword(s);
    var v := ValueLen(s[k..]);
    var rest := Redacted(s[k+v..]);
    assert s[k..][v..] == s[k+v..];
    KeywordTail(s[..k], v, rest);
    Append(out, s[..k], rest);
    Append(out, s[..k], MASK);
    Append(out, s[..k] + MASK, rest);
  }

  lemma PlainStep(s: string, out: string)
    requires s != [] && Keyword(s) == 0
    ensures out + Redacted(s) == (out + [s[0]]) + Redacted(s[1..])
  {
    assert out + ([s[0]] + Redacted(s[1..])) == (out + [s[0]]) + Redacted(s[1..]);
  }

  // ------------------------------------------------------------------ results

  /** `s` begins with `k`, a letter of `k` standing for either case. */
  predicate BeginsAnyCase(s: string, k: string)
  {
    && |s| >= |k|
    && forall i :: 0 <= i < |k| ==> s[i] == k[i] || ('a' <= k[i] <= 'z' && s[i] as int + 32 == k[i] as int)
  }

  /** WHAT A KEYWORD IS: the first of these six that the text begins with, in any letter case. */
  lemma KeywordExact(s: string)
    ensures Keyword(s)
         == if BeginsAnyCase(s, "bearer ") then 7
            else if BeginsAnyCase(s, "authorization:") then 14
            else if BeginsAnyCase(s, "x-api-key:") then 10
            else if BeginsAnyCase(s, "secret") then 6
            else if BeginsAnyCase(s, "password") then 8
            else if BeginsAnyCase(s, "token") then 5 else 0
  {
    hide StartsWith, BeginsAnyCase;
    AnyCase(s, "bearer ");
    AnyCase(s, "authorization:");
    AnyCase(s, "x-api-key:");
    AnyCase(s, "secret");
    AnyCase(s, "password");
    AnyCase(s, "token");
    TryKeyword(KEYWORDS, s);
    TryKeyword(KEYWORDS[1..], s);
    TryKeyword(KEYWORDS[2..], s);
    TryKeyword(KEYWORDS[3..], s);
    TryKeyword(KEYWORDS[4..], s);
    TryKeyword(KEYWORDS[5..], s);
  }

  lemma TryKeyword(keywords: seq<string>, s: string)
    requires keywords != []
    ensures KeywordLen(keywords, s)
         == if StartsWith(s, keywords[0]) then |keywords[0]| else KeywordLen(keywords[1..], s)
    ensures |keywords| == 1 ==> KeywordLen(keywords[1..], s) == 0
  {
  }

  lemma AnyCase(s: string, k: string)
    requires forall i :: 0 <= i < |k| ==> !('A' <= k[i] <= 'Z')
    ensures StartsWith(s, k) <==> BeginsAnyCase(s, k)
  {
    if |s| >= |k| {
      var t := Lower(s[..|k|]);
      assert forall i :: 0 <= i < |k| ==> t[i] == LowerChar(s[i]);
      forall i | 0 <= i < |k|
        ensures t[i] == k[i] <==> s[i] == k[i] || ('a' <= k[i] <= 'z' && s[i] as int + 32 == k[i] as int)
      {
        LowerIs(s[i], k[i]);
      }
    }
  }

  lemma LowerIs(c: char, k: char)
    requires !('A' <= k <= 'Z')
    ensures LowerChar(c) == k <==> c == k || ('a' <= k <= 'z' && c as int + 32 == k as int)
  {
  }

  /** The characters that end a value. */
  predicate EndsValue(c: char) { c in {'"', '\'', ';', '\n', '}', ')'} }

  lemma ValueIs(rest: string, v: nat)
    requires v <= |rest| && (forall i :: 0 <= i < v ==> !EndsValue(rest[i])) && (v == |rest| || EndsValue(rest[v]))
    ensures ValueLen(rest) == v
  {
    assert forall c :: IsDelimiter(c) <==> EndsValue(c);
    hide IsDelimiter, EndsValue;
  }

  /** WHAT IS MASKED: three stars stand for whatever lies between a keyword and the next quote,
      semicolon, line break or closing bracket, or the end; a text without a keyword at its
      front keeps its first character. */
  lemma RedactedExact(keyword: string, value: string, rest: string)
    requires keyword != [] && (forall i :: 0 <= i < |value| ==> !EndsValue(value[i]))
    requires rest == [] || EndsValue(rest[0])
    ensures var s := keyword + value + rest;
            && (Keyword(s) == |keyword| ==>
                  Redacted(s) == keyword + (if value != [] then "***" else "") + Redacted(rest))
            && (Keyword(s) == 0 ==> Redacted(s) == [s[0]] + Redacted(s[1..]))
  {
    hide Keyword, EndsValue, ValueLen, Redacted;
    var s, k, tail := keyword + value + rest, |keyword|, value + rest;
    assert s == keyword + tail;
    assert s[k..] == tail && s[..k] == keyword && tail[|value|..] == rest && s[k+|value|..] == rest;
    ValueIs(tail, |value|);
    RedactedOnce(s);
  }

  lemma RedactedOnce(s: string)
    requires s != []
    ensures var k := Keyword(s);
            Redacted(s)
            == if k == 0 then [s[0]] + Redacted(s[1..])
               else var v := ValueLen(s[k..]); s[..k] + (if v > 0 then "***" else "") + Redacted(s[k+v..])
  {
    hide Keyword, ValueLen;
  }

  lemma {:induction false} KeywordFreeUnchanged(s: string)
    requires KeywordFree(s)
    ensures Redacted(s) == s
    decreases |s|
  {
    if s != [] {
      assert s[0..] == s;
      forall i | 0 <= i < |s[1..]| ensures Keyword(s[1..][i..]) == 0 {
        assert s[1..][i..] == s[i+1..];
      }
      KeywordFreeUnchanged(s[1..]);
      assert s == [s[0]] + s[1..];
    }
  }

  /** The text is left as it is exactly when nothing in it needs masking. */
  lemma {:induction false} UnchangedIffMasked(s: string)
    ensures Redacted(s) == s <==> Masked(s)
    decreases |s|
  {
    hide *;
    var k := Keyword(s);
    if s == [] {
      RedactedNothing(s);
      NothingMasked();
    } else if k == 0 {
      RedactedPlain(s);
      MaskedPlain(s);
      UnchangedIffMasked(s[1..]);
      SameTail([s[0]], s[1..], Redacted(s[1..]));
      assert s == [s[0]] + s[1..];
    } else {
      MaskedKeyword(s);
      UnchangedIffMasked(AfterValue(s, k));
      KeywordUnchanged(s, k);
    }
  }

  lemma KeywordUnchanged(s: string, k: nat)
    requires k == Keyword(s) > 0
    ensures Redacted(s) == s <==> ValueMasked(s, k) && Redacted(AfterValue(s, k)) == AfterValue(s, k)
  {
    RedactedKeyword(s);
    hide ValueLen, Keyword, Redacted, MaskFor;
    var v := ValueLen(s[k..]);
    var rest := s[k+v..];
    KeywordTail(s[..k], v, Redacted(rest));
    assert s == s[..k] + s[k..k+v] + rest;
    if v == 0 {
      assert s == s[..k] + rest;
      SameTail(s[..k], rest, Redacted(rest));
    } else {
      ValueClean(s, k);
      MaskedPart(s, k, v, rest);
    }
  }

  lemma SameTail(front: string, a: string, b: string)
    ensures front + b == front + a <==> b == a
  {
    assert (front + a)[|front|..] == a && (front + b)[|front|..] == b;
  }

  lemma ValueClean(s: string, k: nat)
    requires k <= |s|
    ensures var v := ValueLen(s[k..]); forall i :: k <= i < k + v ==> !IsDelimiter(s[i])
    ensures var rest := s[k+ValueLen(s[k..])..]; rest != [] ==> IsDelimiter(rest[0])
  {
    var v := ValueLen(s[k..]);
    forall i | k <= i < k + v ensures !IsDelimiter(s[i]) { assert s[k..][i-k] == s[i]; }
  }

  lemma MaskedPart(s: string, k: nat, v: nat, rest: string)
    requires k + v <= |s| && v > 0 && s == s[..k] + s[k..k+v] + rest
    requires forall i :: k <= i < k + v ==> !IsDelimiter(s[i])
    requires rest != [] ==> IsDelimiter(rest[0])
    ensures s[..k] + MASK + Redacted(rest) == s <==> s[k..k+v] == MASK && Redacted(rest) == rest
  {
    RedactedStart(rest);
    hide Redacted, ValueLen, Keyword;
    var r := s[..k] + MASK + Redacted(rest);
    if r == s {
      assert r[k..] == MASK + Redacted(rest) && s[k..] == s[k..k+v] + rest;
      var value := s[k..k+v];
      assert forall i :: 0 <= i < v ==> value[i] == s[k+i];
      SameCut(value, rest, Redacted(rest));
    }
  }

  /** A value and the mask that read the same, each up to a delimiter, are the same. */
  lemma SameCut(value: string, rest: string, masked: string)
    requires value + rest == MASK + masked && value != []
    requires forall i :: 0 <= i < |value| ==> !IsDelimiter(value[i])
    requires rest == [] ==> masked == []
    requires rest != [] ==> IsDelimiter(rest[0]) && masked != [] && masked[0] == rest[0]
    ensures value == MASK && masked == rest
  {
    var w := value + rest;
    assert forall i :: 0 <= i < |value| ==> w[i] == value[i];
    assert forall i :: 0 <= i < |MASK| ==> w[i] == MASK[i];
    assert forall i :: 0 <= i < |rest| ==> w[|value| + i] == rest[i];
    assert forall i :: 0 <= i < |masked| ==> w[3 + i] == masked[i];
  }

  /** Every keyword starts with a small letter and holds no mask character. */
  predicate GoodKeywords(keywords: seq<string>)
  {
    forall i :: 0 <= i < |keywords| ==> GoodKeyword(keywords[i])
  }

  predicate GoodKeyword(w: string) { w != [] && 'a' <= w[0] <= 'z' && '*' !in w }

  lemma KeywordsGood()
    ensures GoodKeywords(KEYWORDS)
  {
    assert GoodKeyword("bearer ") && GoodKeyword("authorization:") && GoodKeyword("x-api-key:");
    assert GoodKeyword("secret") && GoodKeyword("password") && GoodKeyword("token");
  }

  lemma {:induction false} KeywordStarts(keywords: seq<string>, s: string)
    requires GoodKeywords(keywords)
    ensures KeywordLen(keywords, s) > 0 ==> 'a' <= LowerChar(s[0]) <= 'z'
    decreases |keywords|
  {
    if keywords != [] && !StartsWith(s, keywords[0]) {
      KeywordStarts(keywords[1..], s);
    } else if keywords != [] {
      assert GoodKeyword(keywords[0]);
      assert Lower(s[..|keywords[0]|])[0] == keywords[0][0];
    }
  }

  /** A scan passes over a delimiter unchanged. */
  lemma RedactedStart(s: string)
    ensures s == [] ==> Redacted(s) == []
    ensures s != [] && IsDelimiter(s[0]) ==> Redacted(s) != [] && Redacted(s)[0] == s[0]
  {
    KeywordsGood();
    KeywordStarts(KEYWORDS, s);
  }

  /** Where the output has no mask character, it is the input. */
  lemma {:induction false} AgreeUpTo(s: string, m: nat)
    requires m <= |Redacted(s)| && '*' !in Redacted(s)[..m]
    ensures m <= |s| && s[..m] == Redacted(s)[..m]
    decreases |s|
  {
    hide *;
    if s != [] && m > 0 {
      var r, k := Redacted(s), Keyword(s);
      if k == 0 {
        RedactedPlain(s);
        NoStar(r[..m], Redacted(s[1..])[..m-1], [s[0]]);
        AgreeUpTo(s[1..], m - 1);
      } else {
        RedactedKeyword(s);
        if m > k {
          var v := ValueLen(s[k..]);
          KeywordTail(s[..k], v, Redacted(s[k+v..]));
          StarWithin(r, m, k);
          assert v == 0;
          NoStar(r[..m], Redacted(s[k..])[..m-k], s[..k]);
          AgreeUpTo(s[k..], m - k);
        }
      }
    } else {
      RedactedNothing(s);
    }
  }

  /** What follows a scanned keyword in the output. */
  lemma KeywordTail(front: string, v: nat, rest: string)
    ensures var r := front + MaskFor(v) + rest;
            && (v == 0 ==> r == front + rest && r[|front|..] == rest)
            && (v > 0 ==> (
                  && |r| >= |front| + 3 && r[|front|] == '*'
                  && r[|front|..|front|+3] == MASK && r[|front|+3..] == rest && r[|front|..] == MASK + rest))
  {
    assert front + [] == front;
  }

  lemma StarWithin(r: string, m: nat, k: nat)
    requires k < m <= |r|
    ensures r[k] == '*' ==> '*' in r[..m]
  {
    assert r[..m][k] == r[k];
  }

  lemma RedactedPlain(s: string)
    requires s != [] && Keyword(s) == 0
    ensures Redacted(s) == [s[0]] + Redacted(s[1..])
  {
    hide Keyword;
  }

  lemma RedactedKeyword(s: string)
    requires Keyword(s) > 0
    ensures var k := Keyword(s);
            var v := ValueLen(s[k..]);
            Redacted(s) == s[..k] + MaskFor(v) + Redacted(s[k+v..])
  {
    hide Keyword, ValueLen, MaskFor;
  }

  lemma RedactedNothing(s: string)
    ensures s == [] ==> Redacted(s) == []
  {
  }

  lemma NoStar(whole: string, part: string, front: string)
    requires whole == front + part && '*' !in whole
    ensures '*' !in part
  {
    forall i | 0 <= i < |part| ensures part[i] != '*' {
      assert whole[|front| + i] == part[i];
    }
  }

  lemma SameStart(s: string, w: string)
    requires GoodKeyword(w) && StartsWith(Redacted(s), w)
    ensures StartsWith(s, w)
  {
    var m, r := |w|, Redacted(s);
    forall i | 0 <= i < m ensures r[..m][i] != '*' {
      assert Lower(r[..m])[i] == w[i] && w[i] in w;
    }
    AgreeUpTo(s, m);
  }

  lemma {:induction false} SameKeywordLen(keywords: seq<string>, s: string, n: nat)
    requires GoodKeywords(keywords) && n == KeywordLen(keywords, s)
    requires n <= |Redacted(s)| && s[..n] == Redacted(s)[..n]
    ensures KeywordLen(keywords, Redacted(s)) == n
    decreases |keywords|
  {
    if keywords != [] {
      assert GoodKeyword(keywords[0]);
      if StartsWith(Redacted(s), keywords[0]) { SameStart(s, keywords[0]); }
      if !StartsWith(s, keywords[0]) {
        SameKeywordLen(keywords[1..], s, n);
      }
    }
  }

  /** A second scan meets the same keywords. */
  lemma SameKeyword(s: string)
    ensures Keyword(Redacted(s)) == Keyword(s)
  {
    KeywordsGood();
    var k := Keyword(s);
    assert k <= |Redacted(s)| && s[..k] == Redacted(s)[..k] by {
      if s != [] && k > 0 { assert Redacted(s)[..k] == s[..k]; }
    }
    SameKeywordLen(KEYWORDS, s, k);
  }

  lemma ValueEnds(text: string, n: nat)
    requires n <= |text| && forall i :: 0 <= i < n ==> !IsDelimiter(text[i])
    requires n < |text| ==> IsDelimiter(text[n])
    ensures ValueLen(text) == n
  {
  }

  lemma MaskedPlain(s: string)
    requires s != [] && Keyword(s) == 0
    ensures Masked(s) <==> Masked(s[1..])
  {
    hide Keyword;
  }

  lemma MaskedKeyword(s: string)
    requires Keyword(s) > 0
    ensures Masked(s) <==> ValueMasked(s, Keyword(s)) && Masked(AfterValue(s, Keyword(s)))
  {
    hide Keyword, ValueMasked, AfterValue;
  }

  /** NOTHING IS LEFT. After one pass every keyword is followed by nothing or the mask,
      up to the next delimiter or the end. */
  lemma {:induction false} RedactedIsMasked(s: string)
    ensures Masked(Redacted(s))
    decreases |s|
  {
    hide *;
    SameKeyword(s);
    var r, k := Redacted(s), Keyword(s);
    if s == [] {
      RedactedNothing(s);
      NothingMasked();
    } else if k == 0 {
      RedactedPlain(s);
      RedactedIsMasked(s[1..]);
      assert r[1..] == Redacted(s[1..]);
      MaskedPlain(r);
    } else {
      var v := ValueLen(s[k..]);
      var rest := s[k+v..];
      RedactedIsMasked(rest);
      RedactedKeyword(s);
      KeywordTail(s[..k], v, Redacted(rest));
      ValueAfterMask(s[k..], v, rest);
      MaskedOutput(r, k, v, Redacted(rest));
      MaskedKeyword(r);
    }
  }

  lemma MaskedOutput(r: string, k: nat, v: nat, rest: string)
    requires k <= |r|
    requires v == 0 ==> r[k..] == rest && ValueLen(rest) == 0
    requires v > 0 ==> r[k..] == MASK + rest && ValueLen(MASK + rest) == 3
    ensures ValueMasked(r, k) && AfterValue(r, k) == rest
  {
    hide ValueLen;
    var n := ValueLen(r[k..]);
    assert r[k..][n..] == r[k+n..] && r[k..][..n] == r[k..k+n];
  }

  lemma NothingMasked()
    ensures Masked([])
  {
  }

  /** In the output the value after a keyword is the mask, or still nothing. */
  lemma ValueAfterMask(value: string, v: nat, rest: string)
    requires v == ValueLen(value) && rest == value[v..]
    ensures v == 0 ==> ValueLen(Redacted(rest)) == 0
    ensures v > 0 ==> ValueLen(MASK + Redacted(rest)) == 3
  {
    hide Keyword, KeywordLen;
    RedactedStart(rest);
    hide Redacted, ValueLen;
    if v > 0 { ValueEnds(MASK + Redacted(rest), 3); } else { ValueEnds(Redacted(rest), 0); }
  }

  /** Redacting twice is redacting once. */
  lemma RedactIdempotent(s: string)
    ensures Redacted(Redacted(s)) == Redacted(s)
  {
    RedactedIsMasked(s);
    UnchangedIffMasked(Redacted(s));
  }
}
