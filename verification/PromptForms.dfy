/** Filling a form from what the human typed (crates/vs-daemon/src/daemon/mod.rs):
    each collected value goes to one act, the first on the page's present token and
    each later one on the token the act before it returned. */
module PromptForms {

  import opened Results
  import opened Trees
  import opened PageStates
  import opened PendingQueues
  import Ledger = QueueLedger
  import Acts = ActProtocol

  /** One act the form asks for. */
  datatype FieldFill = FieldFill(page: string, r: Ref, value: string, before: Token)

  datatype FormResult =
    | Filled(token: Token)
    | PromptFormPending
    | PromptFormCancelled
    | PromptFormUnknown
    | FillFailed

  function FirstToken(current: Option<Token>): Token { if current.Some? then current.value else Zero }

  /** `fills` are the acts for the first values, each on the token the one before returned;
      `answers(k)` is what act `k` returns, `None` an error. */
  ghost predicate FillsInOrder(fills: seq<FieldFill>, values: seq<(PendingEntry, string)>, first: Token,
      answers: nat -> Option<Token>)
  {
    && |fills| <= |values|
    && (forall k :: 0 <= k < |fills| ==>
          fills[k].page == values[k].0.page && fills[k].r == values[k].0.r && fills[k].value == values[k].1)
    && (forall k :: 0 < k < |fills| ==> answers(k-1) == Some(fills[k].before))
    && (|fills| > 0 ==> fills[0].before == first)
  }

  /** Collect a form, fill its fields in order, and hand everything back on any failure. */
  method PromptFormWait(queue: PendingQueue, form: string, current: Option<Token>, answers: nat -> Option<Token>)
    returns (result: FormResult, fills: seq<FieldFill>, ghost wait: FormWait)
    requires Keyed(queue.entries)
    modifies queue
    ensures WaitAnswers(old(queue.entries), form, wait)
    ensures wait == StillPending ==> result == PromptFormPending && fills == [] && queue.entries == old(queue.entries)
    ensures wait == Unknown ==> result == PromptFormUnknown && fills == [] && queue.entries == old(queue.entries)
    ensures wait == FormCancelled ==>
              result == PromptFormCancelled && fills == [] && queue.entries == WithoutForm(old(queue.entries), form)
    ensures wait.Ready? ==>
              && FillsInOrder(fills, wait.values, FirstToken(current), answers)
              && fills != [] && fills[0].before == (if current.Some? then current.value else Zero)
              && (result.Filled? <==> forall k :: 0 <= k < |wait.values| ==> answers(k).Some?)
              && (result.Filled? ==>
                    && |fills| == |wait.values| > 0 && answers(|fills|-1) == Some(result.token)
                    && queue.entries == WithoutForm(old(queue.entries), form))
              && (!result.Filled? ==> result == FillFailed && queue.entries == old(queue.entries))
  {
    hide WaitAnswers, FillsInOrder, Keyed;
    fills := [];
    var answer := queue.WaitFormPass(form);
    wait := answer;
    match answer
    case StillPending => return PromptFormPending, [], wait;
    case FormCancelled => return PromptFormCancelled, [], wait;
    case Unknown => return PromptFormUnknown, [], wait;
    case Ready(values) =>
      var held := values;
      ReadyHasValues(old(queue.entries), form, values);
      var token;
      fills, token := FillFields(values, FirstToken(current), answers);
      FirstIsFirst(fills, values, FirstToken(current), answers);
      if token.None? {
        queue.Restore(held);
        Ledger.RestoreInvertsCollection(old(queue.entries), form, values);
        return FillFailed, fills, wait;
      }
      return Filled(token.value), fills, wait;
  }

  /** One act a value, in order, until one fails; the last act's token if none does. */
  method FillFields(values: seq<(PendingEntry, string)>, first: Token, answers: nat -> Option<Token>)
    returns (fills: seq<FieldFill>, token: Option<Token>)
    requires values != []
    ensures FillsInOrder(fills, values, first, answers)
    ensures token.Some? <==> forall k :: 0 <= k < |values| ==> answers(k).Some?
    ensures fills != [] && (token.Some? ==> |fills| == |values| && answers(|fills|-1) == token)
  {
    fills, token := [], None;
    for k := 0 to |values|
      invariant |fills| == k && FillsInOrder(fills, values, first, answers)
      invariant forall j :: 0 <= j < k ==> answers(j).Some?
      invariant token == if k == 0 then None else answers(k-1)
    {
      var before := if token.Some? then token.value else first;
      fills := fills + [FieldFill(values[k].0.page, values[k].0.r, values[k].1, before)];
      token := answers(k);
      if token.None? { return; }
    }
  }

  lemma FirstIsFirst(fills: seq<FieldFill>, values: seq<(PendingEntry, string)>, first: Token,
                     answers: nat -> Option<Token>)
    requires FillsInOrder(fills, values, first, answers)
    ensures fills != [] ==> fills[0].before == first
  {
  }

  /** NO FILL IS REFUSED ON A PAGE LEFT ALONE. The first fill names the token the page has,
      which passes the check of its act; and so does the next one after every fill that
      landed, and after one answered from the cache exactly with the token it named. */
  lemma FillsPassTheCheck(p: Page, before: Token, cached: Option<Token>, engine: Option<Tree>,
                          cachedNext: Option<Token>, engineNext: Option<Tree>)
    ensures !Acts.ActAnswer(p, FirstToken(p.lastToken), cached, engine).Stale?
    ensures var fill, q := Acts.ActAnswer(p, before, cached, engine), Acts.ActEffect(p, before, cached, engine);
            && (fill.Done? ==> !Acts.ActAnswer(q, fill.token, cachedNext, engineNext).Stale?)
            && (fill.Replayed? ==>
                  (Acts.ActAnswer(q, fill.token, cachedNext, engineNext).Stale? <==> fill.token != before))
  {
    hide Compute, FormFor, Applied;
    if engine.Some? { Acts.AppliedToken(p, engine.value); }
  }
  lemma ReadyHasValues(q: Queue, form: string, values: seq<(PendingEntry, string)>)
    requires WaitAnswers(q, form, Ready(values))
    ensures values != []
  {
    var id :| id in FormIds(q, form);
    var i :| 0 <= i < |values| && values[i].0.id == id;
  }

  // ------------------------------------------- which values reach the engine

  /** Every fill of every form carries this one argument text. */
  const FILL_ARGS: string := "fill ***"

  /** The page's tokens before each fill and after the last, when every fill lands. */
  function TokensBefore(p: Page, trees: seq<Tree>): seq<Token>
  {
    [Acts.Current(p)] + seq(|trees|, i requires 0 <= i < |trees| => Compute(trees[i], p.url, p.id))
  }

  /** The row a fill's audit writes at time `at`; the lookup does not read its writer. */
  function FillRow(before: Token, after: Token, at: nat): Acts.AuditRow
  {
    Acts.AuditRow(None, before, FILL_ARGS, Some(after), at, false, false)
  }

  /** When a fill looks for a cached answer, and when its own audit row is written. */
  datatype Times = Times(looked: nat, written: nat)

  /** One fill after another on a page left alone: none finds a cached answer. */
  ghost predicate AllReach(p: Page, rows: seq<Acts.AuditRow>, times: seq<Times>, trees: seq<Tree>)
    requires |times| == |trees|
    decreases |trees|
  {
    trees == [] || (
      && Acts.Answers(rows, Acts.Current(p), FILL_ARGS, times[0].looked, None)
      && AllReach(Applied(p, trees[0]),
                  rows + [FillRow(Acts.Current(p), Compute(trees[0], p.url, p.id), times[0].written)],
                  times[1..], trees[1..]))
  }

  predicate NoRowFor(rows: seq<Acts.AuditRow>, times: seq<Times>, tokens: seq<Token>)
    requires |times| < |tokens|
  {
    forall k, i :: 0 <= k < |times| && 0 <= i < |rows| ==> !Acts.Matches(rows[i], tokens[k], FILL_ARGS, times[k].looked)
  }

  /** Fills that start at the same token are further apart than an audit row lasts. */
  predicate ApartInTime(times: seq<Times>, tokens: seq<Token>)
    requires |times| < |tokens|
  {
    forall j, k :: 0 <= j < k < |times| && tokens[j] == tokens[k] ==> times[j].written + Acts.TTL < times[k].looked
  }

  lemma LaterTokens(p: Page, trees: seq<Tree>)
    requires trees != []
    ensures TokensBefore(Applied(p, trees[0]), trees[1..]) == TokensBefore(p, trees)[1..]
  {
    hide Compute;
    var q := Applied(p, trees[0]);
    Acts.AppliedToken(p, trees[0]);
    assert q.url == p.url && q.id == p.id;
  }

  lemma NothingToFill(rows: seq<Acts.AuditRow>, times: seq<Times>, tokens: seq<Token>)
    requires times == [] && |tokens| > 0
    ensures NoRowFor(rows, times, tokens) && ApartInTime(times, tokens)
  {
  }

  /** Every value of a form reaches the engine exactly when no fill starts at a token at
      which a fill whose audit row is still young has started: the fields share one
      argument text, so the idempotency cache cannot tell them apart. */
  lemma {:induction false} ValuesReachEngine(p: Page, rows: seq<Acts.AuditRow>, times: seq<Times>, trees: seq<Tree>)
    requires |times| == |trees|
    ensures var tokens := TokensBefore(p, trees);
            AllReach(p, rows, times, trees) <==> NoRowFor(rows, times, tokens) && ApartInTime(times, tokens)
    decreases |trees|
  {
    hide Compute, Applied, NoRowFor, ApartInTime, Acts.Answers, FillRow, Acts.Current;
    var tokens := TokensBefore(p, trees);
    if trees != [] {
      var q := Applied(p, trees[0]);
      var row := FillRow(tokens[0], tokens[1], times[0].written);
      LaterTokens(p, trees);
      ValuesReachEngine(q, rows + [row], times[1..], trees[1..]);
      RowsSplit(rows, row, times, tokens);
    } else {
      NothingToFill(rows, times, tokens);
    }
  }

  lemma RowsSplit(rows: seq<Acts.AuditRow>, row: Acts.AuditRow, times: seq<Times>, tokens: seq<Token>)
    requires 0 < |times| < |tokens| && row == FillRow(tokens[0], tokens[1], times[0].written)
    ensures NoRowFor(rows, times, tokens) && ApartInTime(times, tokens)
       <==> && Acts.Answers(rows, tokens[0], FILL_ARGS, times[0].looked, None)
            && NoRowFor(rows + [row], times[1..], tokens[1..]) && ApartInTime(times[1..], tokens[1..])
  {
    hide Acts.Matches;
    RowsFirst(rows, times, tokens);
    RowsLast(rows, row, times, tokens);
    FirstApart(times, tokens);
  }

  lemma RowsFirst(rows: seq<Acts.AuditRow>, times: seq<Times>, tokens: seq<Token>)
    requires 0 < |times| < |tokens|
    ensures NoRowFor(rows, times, tokens)
       <==> Acts.Answers(rows, tokens[0], FILL_ARGS, times[0].looked, None) && NoRowFor(rows, times[1..], tokens[1..])
  {
    hide Acts.Matches;
    if NoRowFor(rows, times[1..], tokens[1..]) && Acts.Answers(rows, tokens[0], FILL_ARGS, times[0].looked, None) {
      forall k, i | 0 <= k < |times| && 0 <= i < |rows|
        ensures !Acts.Matches(rows[i], tokens[k], FILL_ARGS, times[k].looked)
      {
        if k > 0 { assert tokens[1..][k-1] == tokens[k] && times[1..][k-1] == times[k]; }
      }
    }
  }

  lemma RowsLast(rows: seq<Acts.AuditRow>, row: Acts.AuditRow, times: seq<Times>, tokens: seq<Token>)
    requires 0 < |times| < |tokens| && row == FillRow(tokens[0], tokens[1], times[0].written)
    ensures NoRowFor(rows + [row], times[1..], tokens[1..])
       <==> && NoRowFor(rows, times[1..], tokens[1..])
            && forall k :: 0 < k < |times| && tokens[0] == tokens[k] ==> times[0].written + Acts.TTL < times[k].looked
  {
    var more, later, rest := rows + [row], times[1..], tokens[1..];
    assert forall k :: 0 < k < |times| ==> later[k-1] == times[k] && rest[k-1] == tokens[k];
    if NoRowFor(more, later, rest) {
      assert more[|rows|] == row;
      forall k, i | 0 <= k < |later| && 0 <= i < |rows|
        ensures !Acts.Matches(rows[i], rest[k], FILL_ARGS, later[k].looked) {
        assert more[i] == rows[i];
      }
      forall k | 0 < k < |times| && tokens[0] == tokens[k] ensures times[0].written + Acts.TTL < times[k].looked {
        assert !Acts.Matches(more[|rows|], rest[k-1], FILL_ARGS, later[k-1].looked);
      }
    }
  }

  lemma FirstApart(times: seq<Times>, tokens: seq<Token>)
    requires 0 < |times| < |tokens|
    ensures ApartInTime(times, tokens)
       <==> && ApartInTime(times[1..], tokens[1..])
            && forall k :: 0 < k < |times| && tokens[0] == tokens[k] ==> times[0].written + Acts.TTL < times[k].looked
  {
    var later, rest := times[1..], tokens[1..];
    assert forall k :: 0 < k < |times| ==> later[k-1] == times[k] && rest[k-1] == tokens[k];
    if ApartInTime(times, tokens) {
      forall j, k | 0 <= j < k < |later| && rest[j] == rest[k] ensures later[j].written + Acts.TTL < later[k].looked {
        assert tokens[j+1] == tokens[k+1];
      }
    }
  }

  /** A first fill that leaves the page's token as it was swallows the second value: its
      act is answered from the cache, and the form still counts as filled. */
  lemma SecondValueSwallowed(p: Page, t: Tree, written: nat, looked: nat, second: Option<Tree>)
    requires Compute(t, p.url, p.id) == Acts.Current(p) && written <= looked <= written + Acts.TTL
    ensures var before := Acts.Current(p);
            var q, rows := Applied(p, t), [FillRow(before, before, written)];
            && Acts.ActAnswer(p, before, None, Some(t)).Done?
            && Acts.Answers(rows, before, FILL_ARGS, looked, Some(0))
            && Acts.ActAnswer(q, before, rows[0].after, second) == Acts.Replayed(before)
            && Acts.ActEffect(q, before, rows[0].after, second) == q
    ensures !AllReach(p, [], [Times(written, written), Times(looked, looked)], [t, t])
  {
    Acts.AppliedToken(p, t);
    var times := [Times(written, written), Times(looked, looked)];
    ValuesReachEngine(p, [], times, [t, t]);
    var tokens := TokensBefore(p, [t, t]);
    assert tokens[0] == tokens[1];
    assert !ApartInTime(times, tokens);
  }
}
