/** The pending-input queue: fields a human still has to fill in, grouped into forms
    (crates/vs-daemon/src/daemon/pending.rs). Each method below is one section under
    the queue's lock; a parked wait is a pass repeated after every wake. */
module PendingQueues {

  import opened Results
  import opened SortedMaps
  import opened Trees

  datatype PendingEntry = PendingEntry(
    id: string,
    page: string,
    r: Ref,
    message: string,
    secret: bool,
    token: string,
    group: Option<string>,
    form: Option<string>,
    index: nat,
    created: nat)

  datatype FulfillState = Pending | Fulfilled(value: string) | Cancelled

  datatype Slot = Slot(entry: PendingEntry, state: FulfillState)

  type Queue = map<string, Slot>

  /** Seconds an entry may sit in the queue. */
  const ORPHAN_TTL: nat := 1800

  datatype FormWait =
    | Ready(values: seq<(PendingEntry, string)>)
    | StillPending
    | FormCancelled
    | Unknown

  // ------------------------------------------------------------ specification

  /** Entries are stored under their own id. */
  predicate Keyed(q: Queue) { forall id :: id in q ==> q[id].entry.id == id }

  predicate Expired(e: PendingEntry, now: nat) { now >= e.created + ORPHAN_TTL }

  function Collected(q: Queue, now: nat): Queue
  {
    map id | id in q && !Expired(q[id].entry, now) :: q[id]
  }

  function Enqueued(q: Queue, e: PendingEntry, now: nat): Queue
  {
    Collected(q, now)[e.id := Slot(e, Pending)]
  }

  predicate IsPending(q: Queue, id: string) { id in q && q[id].state == Pending }

  /** A pending entry takes the value; any other stays as it is. */
  function Fulfilling(q: Queue, id: string, value: string): Queue
  {
    if IsPending(q, id) then q[id := q[id].(state := Fulfilled(value))] else q
  }

  function Cancelling(q: Queue, id: string): Queue
  {
    if IsPending(q, id) then q[id := q[id].(state := Cancelled)] else q
  }

  function FormIds(q: Queue, form: string): set<string> { set id | id in q && q[id].entry.form == Some(form) }

  function WithoutForm(q: Queue, form: string): Queue { map id | id in q && q[id].entry.form != Some(form) :: q[id] }

  function Put(q: Queue, values: seq<(PendingEntry, string)>): Queue
  {
    if values == [] then q
    else Put(q, values[..|values|-1])[values[|values|-1].0.id := Slot(values[|values|-1].0,
                                                                      Fulfilled(values[|values|-1].1))]
  }

  /** The form's fulfilled entries, each once, in field order. */
  ghost predicate Collects(q: Queue, form: string, values: seq<(PendingEntry, string)>)
  {
    && (forall i, j :: 0 <= i < j < |values| ==>
         values[i].0.index <= values[j].0.index && values[i].0.id != values[j].0.id)
    && (forall i :: 0 <= i < |values| ==>
          values[i].0.id in FormIds(q, form) && q[values[i].0.id] == Slot(values[i].0, Fulfilled(values[i].1)))
    && (forall id :: id in FormIds(q, form) ==> exists i :: 0 <= i < |values| && values[i].0.id == id)
  }

  /** What one pass of a form's wait may answer. */
  ghost predicate WaitAnswers(q: Queue, form: string, answer: FormWait)
  {
    if exists id :: id in FormIds(q, form) && q[id].state == Cancelled then answer == FormCancelled
    else if FormIds(q, form) == {} then answer == Unknown
    else if exists id :: id in FormIds(q, form) && q[id].state == Pending then answer == StillPending
    else answer.Ready? && Collects(q, form, answer.values)
  }

  function WaitEffect(q: Queue, form: string, answer: FormWait): Queue
  {
    if answer.Ready? || answer.FormCancelled? then WithoutForm(q, form) else q
  }

  // -------------------------------------------------------------- superseding

  /** The entries of a form that belong to a page. */
  function PageFormIds(q: Queue, page: string, form: string): set<string>
  {
    set id | id in q && q[id].entry.form == Some(form) && q[id].entry.page == page
  }

  predicate FieldOrder(a: PendingEntry, b: PendingEntry) { a.index < b.index || (a.index == b.index && a.r <= b.r) }

  predicate SameField(a: PendingEntry, b: PendingEntry) { a.index == b.index && a.r == b.r }

  predicate Distinct(ids: seq<string>) { forall i, j :: 0 <= i < j < |ids| ==> ids[i] != ids[j] }

  predicate Covers(ids: seq<string>, s: set<string>)
  {
    (forall i :: 0 <= i < |ids| ==> ids[i] in s)
        && (forall id :: id in s ==> exists i :: 0 <= i < |ids| && ids[i] == id)
  }

  ghost predicate InFieldOrder(q: Queue, ids: seq<string>)
    requires forall i :: 0 <= i < |ids| ==> ids[i] in q
  {
    forall i, j :: 0 <= i < j < |ids| ==> FieldOrder(q[ids[i]].entry, q[ids[j]].entry)
  }

  /** `ids` lists the set, each id once, in field order. */
  ghost predicate Lists(q: Queue, ids: seq<string>, s: set<string>)
  {
    s <= q.Keys && Distinct(ids) && Covers(ids, s) && InFieldOrder(q, ids)
  }

  function RefsAt(q: Queue, ids: seq<string>): (refs: seq<Ref>)
    requires forall i :: 0 <= i < |ids| ==> ids[i] in q
    ensures |refs| == |ids| && forall i :: 0 <= i < |ids| ==> refs[i] == q[ids[i]].entry.r
  {
    seq(|ids|, i requires 0 <= i < |ids| => q[ids[i]].entry.r)
  }

  /** The set's refs, in field order, are exactly `refs`. */
  ghost predicate Asks(q: Queue, s: set<string>, refs: seq<Ref>)
  {
    exists ids :: Lists(q, ids, s) && RefsAt(q, ids) == refs
  }

  /** A form an identical ask makes dead: untouched, and the same refs in the same order. */
  ghost predicate Dead(q: Queue, page: string, refs: seq<Ref>, form: string)
  {
    var s := PageFormIds(q, page, form);
    s != {} && (forall id :: id in s ==> q[id].state == Pending) && Asks(q, s, refs)
  }

  function CancelForms(q: Queue, forms: set<string>): Queue
  {
    map id | id in q ::
      if q[id].entry.form.Some? && q[id].entry.form.value in forms then q[id].(state := Cancelled) else q[id]
  }

  /** The same fields, one by one. */
  ghost predicate Alike(q: Queue, a: seq<string>, b: seq<string>)
  {
    |a| == |b| && forall i :: 0 <= i < |a| ==> a[i] in q && b[i] in q && SameField(q[a[i]].entry, q[b[i]].entry)
  }

  /** Two listings of one set show the same fields. */
  lemma {:induction false} ListingsAgree(q: Queue, a: seq<string>, b: seq<string>, s: set<string>)
    requires Lists(q, a, s) && Lists(q, b, s)
    ensures Alike(q, a, b)
    decreases |a|
  {
    if a == [] {
      EmptyListing(q, a, s);
      EmptyListing(q, b, s);
    } else {
      hide Lists, Alike;
      var p := FirstIn(q, a, b, s);
      var c := b[0 := a[0]][p := b[0]];
      SwappedLists(q, b, a[0], p, s);
      TailLists(q, a, s);
      TailLists(q, c, s);
      ListingsAgree(q, a[1..], c[1..], s - {a[0]});
      AlikeCons(q, a, b, c);
    }
  }

  lemma EmptyListing(q: Queue, ids: seq<string>, s: set<string>)
    ensures Lists(q, ids, s) ==> (ids == [] <==> s == {})
  {
    if Lists(q, ids, s) && ids != [] { assert ids[0] in s; }
  }

  lemma AlikeCons(q: Queue, a: seq<string>, b: seq<string>, c: seq<string>)
    requires a != [] && c != [] && a[0] == c[0] && a[0] in q && Alike(q, b, c) && Alike(q, a[1..], c[1..])
    ensures Alike(q, a, b)
  {
    forall i | 0 <= i < |a| ensures a[i] in q && b[i] in q && SameField(q[a[i]].entry, q[b[i]].entry) {
      if i > 0 { assert a[i] == a[1..][i-1] && c[i] == c[1..][i-1]; }
    }
  }

  /** Where the head of one listing stands in another; up to there all fields are the same. */
  lemma FirstIn(q: Queue, a: seq<string>, b: seq<string>, s: set<string>) returns (p: nat)
    requires Lists(q, a, s) && Lists(q, b, s) && a != []
    ensures p < |b| && b[p] == a[0] && a[0] in q && b[0] in q && SameField(q[a[0]].entry, q[b[0]].entry)
  {
    assert a[0] in s;
    p :| 0 <= p < |b| && b[p] == a[0];
    assert b[0] in s;
    var m :| 0 <= m < |a| && a[m] == b[0];
  }

  lemma SwappedLists(q: Queue, b: seq<string>, x: string, p: nat, s: set<string>)
    requires Lists(q, b, s) && p < |b| && b[p] == x && SameField(q[x].entry, q[b[0]].entry)
    ensures var c := b[0 := x][p := b[0]]; |c| == |b| && c[0] == x && Lists(q, c, s) && Alike(q, b, c)
  {
    var c := b[0 := x][p := b[0]];
    SwapCovers(b, p, s);
    hide Covers, Distinct;
    assert forall i :: 0 <= i < |b| ==> b[i] in q by { CoversIn(b, s); }
    assert Alike(q, b, c);
    AlikeOrder(q, b, c);
  }

  lemma CoversIn(ids: seq<string>, s: set<string>)
    requires Covers(ids, s)
    ensures forall i :: 0 <= i < |ids| ==> ids[i] in s
  {
  }

  lemma SwapCovers(b: seq<string>, p: nat, s: set<string>)
    requires p < |b| && Distinct(b) && Covers(b, s)
    ensures var c := b[0 := b[p]][p := b[0]]; Distinct(c) && Covers(c, s)
  {
    var c := b[0 := b[p]][p := b[0]];
    forall id | id in s ensures exists i :: 0 <= i < |c| && c[i] == id {
      var i :| 0 <= i < |b| && b[i] == id;
      assert c[if i == 0 then p else if i == p then 0 else i] == id;
    }
  }

  lemma AlikeOrder(q: Queue, b: seq<string>, c: seq<string>)
    requires Alike(q, b, c) && InFieldOrder(q, b)
    ensures InFieldOrder(q, c)
  {
    forall i, j | 0 <= i < j < |c| ensures FieldOrder(q[c[i]].entry, q[c[j]].entry) {
      assert FieldOrder(q[b[i]].entry, q[b[j]].entry);
      assert SameField(q[b[i]].entry, q[c[i]].entry) && SameField(q[b[j]].entry, q[c[j]].entry);
    }
  }

  lemma TailLists(q: Queue, a: seq<string>, s: set<string>)
    requires Lists(q, a, s) && a != []
    ensures a[0] in q && Lists(q, a[1..], s - {a[0]})
  {
    assert a[0] in s;
    forall id | id in s - {a[0]} ensures exists i :: 0 <= i < |a[1..]| && a[1..][i] == id {
      var i :| 0 <= i < |a| && a[i] == id;
      assert a[1..][i-1] == id;
    }
  }

  // ---------------------------------------------------------------- sorting

  predicate ByIndex(values: seq<(PendingEntry, string)>)
  {
    forall i, j :: 0 <= i < j < |values| ==> values[i].0.index <= values[j].0.index
  }

  predicate DistinctIds(values: seq<(PendingEntry, string)>)
  {
    forall i, j :: 0 <= i < j < |values| ==> values[i].0.id != values[j].0.id
  }

  /** Insertion after every value with the same or a smaller index. */
  function InsertByIndex(values: seq<(PendingEntry, string)>,
                         x: (PendingEntry, string)): (r: seq<(PendingEntry, string)>)
  {
    if values == [] || values[|values|-1].0.index <= x.0.index then values + [x]
    else InsertByIndex(values[..|values|-1], x) + [values[|values|-1]]
  }

  lemma {:induction false} Inserted(values: seq<(PendingEntry, string)>, x: (PendingEntry, string))
    ensures forall y :: y in InsertByIndex(values, x) <==> y == x || y in values
    ensures ByIndex(values) ==> ByIndex(InsertByIndex(values, x))
    ensures DistinctIds(values) && NewId(values, x) ==> DistinctIds(InsertByIndex(values, x))
    decreases |values|
  {
    if values != [] && values[|values|-1].0.index > x.0.index {
      var k := |values| - 1;
      var front, last := values[..k], values[k];
      Inserted(front, x);
      var inner := InsertByIndex(front, x);
      assert values == front + [last];
      assert forall y :: y in values <==> y in front || y == last;
      assert forall y :: y in inner + [last] <==> y in inner || y == last;
      InsertedOrder(values, x, inner);
    } else {
      assert forall y :: y in values + [x] <==> y in values || y == x;
      assert forall i :: 0 <= i < |values| ==> values[i] in values;
    }
  }

  predicate NewId(values: seq<(PendingEntry, string)>, x: (PendingEntry, string))
  {
    forall i :: 0 <= i < |values| ==> values[i].0.id != x.0.id
  }

  lemma InsertedOrder(values: seq<(PendingEntry, string)>, x: (PendingEntry, string),
                      inner: seq<(PendingEntry, string)>)
    requires values != [] && values[|values|-1].0.index > x.0.index
    requires var front := values[..|values|-1];
             && (forall y :: y in inner <==> y == x || y in front)
             && (ByIndex(front) ==> ByIndex(inner))
             && (DistinctIds(front) && NewId(front, x) ==> DistinctIds(inner))
    ensures ByIndex(values) ==> ByIndex(inner + [values[|values|-1]])
    ensures DistinctIds(values) && NewId(values, x) ==> DistinctIds(inner + [values[|values|-1]])
  {
    var k := |values| - 1;
    var front := values[..k];
    forall i | 0 <= i < |inner|
      ensures ByIndex(values) ==> inner[i].0.index <= values[k].0.index
      ensures DistinctIds(values) && NewId(values, x) ==> inner[i].0.id != values[k].0.id
    {
      assert inner[i] in inner;
      if inner[i] != x {
        var j :| 0 <= j < k && front[j] == inner[i];
        assert values[j] == inner[i];
      }
    }
  }

  method SortByIndex(values: seq<(PendingEntry, string)>) returns (sorted: seq<(PendingEntry, string)>)
    ensures ByIndex(sorted) && forall y :: y in sorted <==> y in values
    ensures DistinctIds(values) ==> DistinctIds(sorted)
  {
    sorted := [];
    for i := 0 to |values|
      invariant ByIndex(sorted) && forall y :: y in sorted <==> y in values[..i]
      invariant DistinctIds(values) ==> DistinctIds(sorted)
    {
      assert values[..i+1] == values[..i] + [values[i]];
      Inserted(sorted, values[i]);
      NewAmong(values, i, sorted);
      sorted := InsertByIndex(sorted, values[i]);
    }
    assert values[..|values|] == values;
  }

  lemma NewAmong(values: seq<(PendingEntry, string)>, i: nat, sorted: seq<(PendingEntry, string)>)
    requires i < |values| && forall y :: y in sorted <==> y in values[..i]
    ensures DistinctIds(values) ==> NewId(sorted, values[i])
  {
    forall k | 0 <= k < |sorted| ensures DistinctIds(values) ==> sorted[k].0.id != values[i].0.id {
      assert sorted[k] in sorted;
      var j :| 0 <= j < i && values[..i][j] == sorted[k];
    }
  }

  // ------------------------------------------------------------ sorting a listing

  predicate FormLess(a: Option<string>, b: Option<string>) { b.Some? && (a.None? || Less(a.value, b.value)) }

  /** By form, the ones without a form first, then place, then id. */
  predicate ListedLess(a: PendingEntry, b: PendingEntry)
  {
    FormLess(a.form, b.form)
    || (a.form == b.form && (a.index < b.index || (a.index == b.index && Less(a.id, b.id))))
  }

  predicate InListOrder(s: seq<PendingEntry>) { forall i, j :: 0 <= i < j < |s| ==> ListedLess(s[i], s[j]) }

  lemma ListedTotal(a: PendingEntry, b: PendingEntry)
    ensures !ListedLess(a, a)
    ensures a.id != b.id ==> ListedLess(a, b) || ListedLess(b, a)
  {
    LessIrreflexive(a.id);
    LessTotal(a.id, b.id);
    if a.form.Some? {
      LessIrreflexive(a.form.value);
      if b.form.Some? { LessTotal(a.form.value, b.form.value); }
    }
  }

  /** THE ORDER OF A LISTING: entries without a form, then form by form; in a form by place; and
      where places are shared by id. */
  lemma ListedExact(a: PendingEntry, b: PendingEntry)
    ensures ListedLess(a, b)
       <==> if a.form != b.form then a.form.None?
           || (b.form.Some? && exists k: nat :: SmallerAt(a.form.value, b.form.value, k))
            else if a.index != b.index then a.index < b.index
            else exists k: nat :: SmallerAt(a.id, b.id, k)
  {
    hide Less, SmallerAt;
    LessExact(a.id, b.id);
    if a.form.Some? && b.form.Some? { LessExact(a.form.value, b.form.value); }
    if a.form.Some? { LessIrreflexive(a.form.value); }
  }

  lemma ListedTransitive(a: PendingEntry, b: PendingEntry, c: PendingEntry)
    requires ListedLess(a, b) && ListedLess(b, c)
    ensures ListedLess(a, c)
  {
    if Less(a.id, b.id) && Less(b.id, c.id) { LessTransitive(a.id, b.id, c.id); }
    if a.form.Some? && FormLess(a.form, b.form) && FormLess(b.form, c.form) {
      LessTransitive(a.form.value, b.form.value, c.form.value);
    }
  }

  function InsertListed(s: seq<PendingEntry>, x: PendingEntry): seq<PendingEntry>
  {
    if s == [] || ListedLess(s[|s|-1], x) then s + [x]
    else InsertListed(s[..|s|-1], x) + [s[|s|-1]]
  }

  lemma {:induction false} ListedInserted(s: seq<PendingEntry>, x: PendingEntry)
    requires InListOrder(s) && forall i :: 0 <= i < |s| ==> s[i].id != x.id
    ensures InListOrder(InsertListed(s, x))
    ensures forall y :: y in InsertListed(s, x) <==> y == x || y in s
    decreases |s|
  {
    var r := InsertListed(s, x);
    if s != [] {
      var k := |s| - 1;
      ListedTotal(s[k], x);
      if ListedLess(s[k], x) {
        forall i | 0 <= i < k ensures ListedLess(s[i], x) { ListedTransitive(s[i], s[k], x); }
      } else {
        var front := s[..k];
        ListedInserted(front, x);
        var inner := InsertListed(front, x);
        assert s == front + [s[k]];
        assert forall y :: y in r <==> y in inner || y == s[k];
        forall i | 0 <= i < |inner| ensures ListedLess(inner[i], s[k]) {
          assert inner[i] in inner;
        }
      }
    }
  }

  method SortListed(s: seq<PendingEntry>) returns (sorted: seq<PendingEntry>)
    requires forall i, j :: 0 <= i < j < |s| ==> s[i].id != s[j].id
    ensures InListOrder(sorted) && forall y :: y in sorted <==> y in s
  {
    sorted := [];
    for k := 0 to |s|
      invariant InListOrder(sorted) && forall y :: y in sorted <==> y in s[..k]
    {
      assert s[..k+1] == s[..k] + [s[k]];
      forall i | 0 <= i < |sorted| ensures sorted[i].id != s[k].id {
        assert sorted[i] in sorted;
        var j :| 0 <= j < k && s[..k][j] == sorted[i];
      }
      ListedInserted(sorted, s[k]);
      sorted := InsertListed(sorted, s[k]);
    }
    assert s[..|s|] == s;
  }

  // ------------------------------------------------------- sorting field lists

  function InsertField(q: Queue, ids: seq<string>, id: string): (r: seq<string>)
    requires id in q && forall i :: 0 <= i < |ids| ==> ids[i] in q
    ensures |r| == |ids| + 1 && forall i :: 0 <= i < |r| ==> r[i] in q
  {
    if ids == [] || FieldOrder(q[ids[|ids|-1]].entry, q[id].entry) then ids + [id]
    else InsertField(q, ids[..|ids|-1], id) + [ids[|ids|-1]]
  }

  lemma FieldTotal(a: PendingEntry, b: PendingEntry)
    ensures FieldOrder(a, b) || FieldOrder(b, a)
  {
  }

  lemma {:induction false} FieldInserted(q: Queue, ids: seq<string>, id: string, s: set<string>)
    requires Lists(q, ids, s) && id in q && id !in s
    requires forall i :: 0 <= i < |ids| ==> ids[i] in q
    ensures Lists(q, InsertField(q, ids, id), s + {id})
    decreases |ids|
  {
    hide Lists, FieldOrder;
    var k := |ids| - 1;
    if ids != [] && !FieldOrder(q[ids[k]].entry, q[id].entry) {
      FrontLists(q, ids, s);
      FieldTotal(q[ids[k]].entry, q[id].entry);
      FieldInserted(q, ids[..k], id, s - {ids[k]});
      LastListed(q, InsertField(q, ids[..k], id), s - {ids[k]} + {id}, ids[k]);
      assert s - {ids[k]} + {id} + {ids[k]} == s + {id};
    } else {
      ListedBefore(q, ids, s, id);
      LastListed(q, ids, s, id);
    }
  }

  lemma FrontLists(q: Queue, ids: seq<string>, s: set<string>)
    requires Lists(q, ids, s) && ids != []
    ensures var k := |ids| - 1;
            && ids[k] in s && Lists(q, ids[..k], s - {ids[k]})
            && forall id :: id in s - {ids[k]} ==> FieldOrder(q[id].entry, q[ids[k]].entry)
  {
    var k := |ids| - 1;
    forall id | id in s - {ids[k]}
      ensures exists i :: 0 <= i < k && ids[..k][i] == id
      ensures FieldOrder(q[id].entry, q[ids[k]].entry)
    {
      var i :| 0 <= i < |ids| && ids[i] == id;
      assert ids[..k][i] == id;
    }
  }

  lemma ListedBefore(q: Queue, ids: seq<string>, s: set<string>, last: string)
    requires Lists(q, ids, s) && last in q
    requires ids != [] ==> ids[|ids|-1] in q && FieldOrder(q[ids[|ids|-1]].entry, q[last].entry)
    ensures forall id :: id in s ==> id in q && FieldOrder(q[id].entry, q[last].entry)
  {
    forall id | id in s ensures id in q && FieldOrder(q[id].entry, q[last].entry) {
      var i :| 0 <= i < |ids| && ids[i] == id;
      var k := |ids| - 1;
      assert ids[k] in s;
      if i < k { assert FieldOrder(q[ids[i]].entry, q[ids[k]].entry); }
    }
  }

  lemma LastListed(q: Queue, ids: seq<string>, s: set<string>, last: string)
    requires Lists(q, ids, s) && last in q && last !in s
    requires forall id :: id in s ==> FieldOrder(q[id].entry, q[last].entry)
    ensures Lists(q, ids + [last], s + {last})
  {
    var r := ids + [last];
    forall id | id in s + {last} ensures exists i :: 0 <= i < |r| && r[i] == id {
      if id == last {
        assert r[|ids|] == id;
      } else {
        var i :| 0 <= i < |ids| && ids[i] == id;
        assert r[i] == id;
      }
    }
  }

  // ------------------------------------------------------------- the queue

  class PendingQueue {
    var entries: Queue

    constructor ()
      ensures entries == map[]
    {
      entries := map[];
    }

    /** Drop entries past their time. */
    method Gc(now: nat)
      modifies this
      ensures entries == Collected(old(entries), now)
    {
      entries := map id | id in entries && !Expired(entries[id].entry, now) :: entries[id];
    }

    method Enqueue(e: PendingEntry, now: nat)
      modifies this
      ensures entries == Enqueued(old(entries), e, now)
    {
      Gc(now);
      entries := entries[e.id := Slot(e, Pending)];
    }

    method Fulfill(id: string, value: string) returns (ok: bool)
      modifies this
      ensures ok == IsPending(old(entries), id) && entries == Fulfilling(old(entries), id, value)
    {
      if id in entries {
        if entries[id].state == Pending {
          entries := entries[id := entries[id].(state := Fulfilled(value))];
          return true;
        }
      }
      return false;
    }

    method Cancel(id: string) returns (ok: bool)
      modifies this
      ensures ok == IsPending(old(entries), id) && entries == Cancelling(old(entries), id)
    {
      if id in entries {
        if entries[id].state == Pending {
          entries := entries[id := entries[id].(state := Cancelled)];
          return true;
        }
      }
      return false;
    }

    method Peek(id: string) returns (e: Option<PendingEntry>)
      ensures e == if IsPending(entries, id) then Some(entries[id].entry) else None
    {
      if id in entries && entries[id].state == Pending { return Some(entries[id].entry); }
      return None;
    }

    /** The entries still pending, each once, in listing order; what is past its time goes first. */
    method List(now: nat) returns (pending: seq<PendingEntry>)
      requires Keyed(entries)
      modifies this
      ensures entries == Collected(old(entries), now)
      ensures InListOrder(pending)
      ensures forall i :: 0 <= i < |pending| ==>
               IsPending(entries, pending[i].id) && entries[pending[i].id].entry == pending[i]
      ensures forall id :: IsPending(entries, id) ==> exists i :: 0 <= i < |pending| && pending[i].id == id
      ensures forall i, j :: 0 <= i < j < |pending| ==> pending[i].id != pending[j].id
    {
      Gc(now);
      var found := FilterPending();
      pending := SortListed(found);
      ListingIsWhole(entries, found, pending);
    }

    /** The entries still pending, each once, in whatever order the map yields them. */
    method FilterPending() returns (pending: seq<PendingEntry>)
      requires Keyed(entries)
      ensures PendingOnce(entries, pending)
    {
      pending := [];
      var todo := entries.Keys;
      while todo != {}
        invariant todo <= entries.Keys
        invariant forall i :: 0 <= i < |pending| ==>
                    IsPending(entries, pending[i].id) && pending[i].id !in todo
                        && entries[pending[i].id].entry == pending[i]
        invariant forall id :: IsPending(entries, id) && id !in todo ==>
                   exists i :: 0 <= i < |pending| && pending[i].id == id
        invariant forall i, j :: 0 <= i < j < |pending| ==> pending[i].id != pending[j].id
        decreases |todo|
      {
        var id :| id in todo;
        ghost var before := pending;
        if entries[id].state == Pending { pending := pending + [entries[id].entry]; }
        assert forall i :: 0 <= i < |before| ==> pending[i] == before[i];
        assert IsPending(entries, id) ==> pending[|before|].id == id;
        todo := todo - {id};
      }
    }

    method Restore(values: seq<(PendingEntry, string)>)
      modifies this
      ensures entries == Put(old(entries), values)
    {
      for i := 0 to |values|
        invariant entries == Put(old(entries), values[..i])
      {
        assert values[..i+1][..i] == values[..i];
        entries := entries[values[i].0.id := Slot(values[i].0, Fulfilled(values[i].1))];
      }
      assert values[..|values|] == values;
    }

    /** Sort a form's entries into fulfilled, open and cancelled. */
    method LookAt(form: string) returns (done: seq<(PendingEntry, string)>, open: bool, cancelled: bool)
      requires Keyed(entries)
      ensures open <==> exists id :: id in FormIds(entries, form) && entries[id].state == Pending
      ensures cancelled <==> exists id :: id in FormIds(entries, form) && entries[id].state == Cancelled
      ensures Gathered(entries, form, {}, done)
    {
      done, open, cancelled := [], false, false;
      var todo := entries.Keys;
      while todo != {}
        invariant todo <= entries.Keys
        invariant open <==> exists id :: id in FormIds(entries, form) - todo && entries[id].state == Pending
        invariant cancelled <==> exists id :: id in FormIds(entries, form) - todo && entries[id].state == Cancelled
        invariant Gathered(entries, form, todo, done)
        decreases |todo|
      {
        var id :| id in todo;
        var slot := entries[id];
        if slot.entry.form == Some(form) {
          match slot.state {
            case Pending => open := true;
            case Fulfilled(v) =>
              GatherOne(entries, form, todo, done, id);
              done := done + [(slot.entry, v)];
            case Cancelled => cancelled := true;
          }
        }
        GatherNone(entries, form, todo, done, id);
        todo := todo - {id};
      }
    }

    /** One look at a form: collect it if it is complete, purge it if it is cancelled. */
    method WaitFormPass(form: string) returns (answer: FormWait)
      requires Keyed(entries)
      modifies this
      ensures WaitAnswers(old(entries), form, answer)
      ensures entries == WaitEffect(old(entries), form, answer)
    {
      var done, open, cancelled := LookAt(form);
      if cancelled {
        entries := WithoutForm(entries, form);
        return FormCancelled;
      }
      if done == [] && !open {
        NothingGathered(entries, form, done);
        return Unknown;
      }
      if !open {
        var sorted := SortByIndex(done);
        AllGathered(entries, form, done, sorted);
        assert done[0].0.id in FormIds(entries, form);
        entries := WithoutForm(entries, form);
        return Ready(sorted);
      }
      return StillPending;
    }

    /** Cancel the forms that an identical fresh ask makes dead. */
    method Supersede(page: string, refs: seq<Ref>) returns (dead: set<string>)
      modifies this
      ensures forall form :: form in dead <==> Dead(old(entries), page, refs, form)
      ensures entries == CancelForms(old(entries), dead)
    {
      var forms := set id | id in entries && entries[id].entry.form.Some? && entries[id].entry.page == page
                     :: entries[id].entry.form.value;
      ghost var all := forms;
      dead := {};
      while forms != {}
        invariant entries == old(entries) && forms <= all
        invariant forall form :: form in dead <==> form in all - forms && Dead(entries, page, refs, form)
        decreases |forms|
      {
        var form :| form in forms;
        var isDead := FormIsDead(page, refs, form);
        if isDead { dead := dead + {form}; }
        forms := forms - {form};
      }
      forall form | Dead(entries, page, refs, form) ensures form in all {
        var id :| id in PageFormIds(entries, page, form);
        assert entries[id].entry.form.value == form;
      }
      entries := CancelForms(entries, dead);
    }

    /** Gather a form's fields on a page, sort them and compare. */
    method FormIsDead(page: string, refs: seq<Ref>, form: string) returns (dead: bool)
      ensures dead <==> Dead(entries, page, refs, form)
    {
      var todo := PageFormIds(entries, page, form);
      if todo == {} { return false; }
      ghost var all := todo;
      var fields: seq<string> := [];
      assert all - todo == {} && Lists(entries, fields, {});
      while todo != {}
        invariant todo <= all
        invariant forall i :: 0 <= i < |fields| ==> fields[i] in entries
        invariant Lists(entries, fields, all - todo)
        invariant forall id :: id in all - todo ==> entries[id].state == Pending
        decreases |todo|
      {
        var id :| id in todo;
        if entries[id].state != Pending { return false; }
        FieldInserted(entries, fields, id, all - todo);
        fields := InsertField(entries, fields, id);
        assert all - todo + {id} == all - (todo - {id});
        todo := todo - {id};
      }
      assert all - todo == all;
      dead := RefsAt(entries, fields) == refs;
      AsksDecided(entries, fields, all, refs);
    }
  }

  ghost predicate PendingOnce(q: Queue, pending: seq<PendingEntry>)
  {
    && (forall i :: 0 <= i < |pending| ==> IsPending(q, pending[i].id) && q[pending[i].id].entry == pending[i])
    && (forall id :: IsPending(q, id) ==> exists i :: 0 <= i < |pending| && pending[i].id == id)
    && (forall i, j :: 0 <= i < j < |pending| ==> pending[i].id != pending[j].id)
  }

  lemma ListingIsWhole(q: Queue, found: seq<PendingEntry>, pending: seq<PendingEntry>)
    requires PendingOnce(q, found) && InListOrder(pending) && forall y :: y in pending <==> y in found
    ensures PendingOnce(q, pending)
  {
    forall i | 0 <= i < |pending| ensures IsPending(q, pending[i].id) && q[pending[i].id].entry == pending[i] {
      assert pending[i] in found;
    }
    forall id | IsPending(q, id) ensures exists i :: 0 <= i < |pending| && pending[i].id == id {
      var i :| 0 <= i < |found| && found[i].id == id;
      assert found[i] in pending;
    }
    forall i, j | 0 <= i < j < |pending| ensures pending[i].id != pending[j].id {
      ListedTotal(pending[i], pending[j]);
    }
  }

  lemma AsksDecided(q: Queue, fields: seq<string>, s: set<string>, refs: seq<Ref>)
    requires Lists(q, fields, s) && forall i :: 0 <= i < |fields| ==> fields[i] in q
    ensures Asks(q, s, refs) <==> RefsAt(q, fields) == refs
  {
    if Asks(q, s, refs) {
      var ids :| Lists(q, ids, s) && RefsAt(q, ids) == refs;
      ListingsAgree(q, fields, ids, s);
      assert forall i :: 0 <= i < |ids| ==> RefsAt(q, fields)[i] == RefsAt(q, ids)[i];
    }
  }

  /** The fulfilled entries of a form met so far. */
  ghost predicate Gathered(q: Queue, form: string, todo: set<string>, done: seq<(PendingEntry, string)>)
  {
    && DistinctIds(done)
    && (forall i :: 0 <= i < |done| ==>
          done[i].0.id in FormIds(q, form) - todo && q[done[i].0.id] == Slot(done[i].0, Fulfilled(done[i].1)))
    && (forall id :: id in FormIds(q, form) - todo && q[id].state.Fulfilled? ==>
          exists i :: 0 <= i < |done| && done[i].0.id == id)
  }

  lemma GatherOne(q: Queue, form: string, todo: set<string>, done: seq<(PendingEntry, string)>, id: string)
    requires Keyed(q) && Gathered(q, form, todo, done) && id in todo && id in FormIds(q, form) && q[id].state.Fulfilled?
    ensures Gathered(q, form, todo - {id}, done + [(q[id].entry, q[id].state.value)])
  {
    var r := done + [(q[id].entry, q[id].state.value)];
    forall x | x in FormIds(q, form) - (todo - {id}) && q[x].state.Fulfilled?
      ensures exists i :: 0 <= i < |r| && r[i].0.id == x
    {
      if x == id {
        assert r[|done|].0.id == id;
      } else {
        var i :| 0 <= i < |done| && done[i].0.id == x;
        assert r[i].0.id == x;
      }
    }
  }

  lemma GatherNone(q: Queue, form: string, todo: set<string>, done: seq<(PendingEntry, string)>, id: string)
    ensures Gathered(q, form, todo, done) && id in todo && !(id in FormIds(q, form) && q[id].state.Fulfilled?)
        ==> Gathered(q, form, todo - {id}, done)
  {
  }

  lemma NothingGathered(q: Queue, form: string, done: seq<(PendingEntry, string)>)
    requires Gathered(q, form, {}, done) && done == []
    requires forall id :: id in FormIds(q, form) ==> q[id].state.Fulfilled?
    ensures FormIds(q, form) == {}
  {
  }

  lemma AllGathered(q: Queue, form: string, done: seq<(PendingEntry, string)>, sorted: seq<(PendingEntry, string)>)
    requires Gathered(q, form, {}, done) && ByIndex(sorted) && DistinctIds(sorted)
    requires forall y :: y in sorted <==> y in done
    requires forall id :: id in FormIds(q, form) ==> q[id].state.Fulfilled?
    ensures Collects(q, form, sorted)
  {
    forall id | id in FormIds(q, form) ensures exists i :: 0 <= i < |sorted| && sorted[i].0.id == id {
      var i :| 0 <= i < |done| && done[i].0.id == id;
      assert done[i] in sorted;
    }
    forall i | 0 <= i < |sorted|
      ensures sorted[i].0.id in FormIds(q, form) && q[sorted[i].0.id] == Slot(sorted[i].0, Fulfilled(sorted[i].1))
    {
      assert sorted[i] in done;
    }
  }
}
