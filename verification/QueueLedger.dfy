/** What the human typed, followed over every run of the pending queue: where each
    value is, and the only ways it can leave (crates/vs-daemon/src/daemon/pending.rs). */
module QueueLedger {

  import opened Results
  import opened Trees
  import opened PendingQueues

  // --------------------------------------------------------- forms and their values

  // ------------------------------------------------- the queue's operations, entry by entry

  /** AN ENTRY QUEUED is pending, whatever was there under its id; of the others, what is
      younger than half an hour stays as it was and the rest goes. */
  lemma EnqueueExact(q: Queue, e: PendingEntry, now: nat, id: string)
    ensures var r := Enqueued(q, e, now);
            && r[e.id] == Slot(e, Pending)
            && (id != e.id ==> (id in r <==> id in q && now < q[id].entry.created + 1800))
            && (id != e.id && id in r ==> r[id] == q[id])
  {
  }

  /** WHAT A HUMAN ENTERS goes to the entry if it is still pending, and to no other; a cancel
      likewise takes only a pending one. */
  lemma EntryExact(q: Queue, id: string, value: string, other: string)
    requires id in q
    ensures Fulfilling(q, id, value)[id] == if q[id].state
            == Pending then Slot(q[id].entry, Fulfilled(value)) else q[id]
    ensures Cancelling(q, id)[id] == if q[id].state == Pending then Slot(q[id].entry, Cancelled) else q[id]
    ensures other != id ==> (other in Fulfilling(q, id, value) <==> other in q)
    ensures other != id ==> (other in Cancelling(q, id) <==> other in q)
    ensures other != id && other in q ==> Fulfilling(q, id, value)[other] == q[other] == Cancelling(q, id)[other]
  {
  }

  /** WHAT A WAIT ANSWERS: cancelled if any field is, else pending if any is, else the values of
      all fields; and nothing is known of a form without fields. The form leaves the queue
      with the first and the third answer. */
  lemma WaitExact(q: Queue, form: string, answer: FormWait)
    requires WaitAnswers(q, form, answer)
    ensures (answer == Unknown <==> forall x :: x in q ==> q[x].entry.form != Some(form))
    ensures (answer == FormCancelled
             <==> exists x :: x in q && q[x].entry.form == Some(form) && q[x].state == Cancelled)
    ensures answer == StillPending <==>
              && (exists x :: x in q && q[x].entry.form == Some(form) && q[x].state == Pending)
              && (forall x :: x in q && q[x].entry.form == Some(form) ==> q[x].state != Cancelled)
    ensures answer.Ready? <==>
              && (exists x :: x in q && q[x].entry.form == Some(form))
              && (forall x :: x in q && q[x].entry.form == Some(form) ==> q[x].state.Fulfilled?)
    ensures var r := WaitEffect(q, form, answer);
            forall x :: && (x in r
                            <==> x in q && (q[x].entry.form == Some(form)
                                            ==> !answer.Ready? && answer != FormCancelled))
                        && (x in r ==> r[x] == q[x])
  {
    assert forall x :: x in FormIds(q, form) <==> x in q && q[x].entry.form == Some(form);
    if answer.Ready? { CollectedExact(q, form, answer.values); }
    hide Collects;
  }

  /** The values collected are those of the form's fields, each once, in the order of their places. */
  lemma CollectedExact(q: Queue, form: string, values: seq<(PendingEntry, string)>)
    requires Collects(q, form, values)
    ensures forall i, j :: 0 <= i < j < |values| ==>
              values[i].0.index <= values[j].0.index && values[i].0.id != values[j].0.id
    ensures forall i :: 0 <= i < |values| ==>
              && values[i].0.id in q && values[i].0.form == Some(form)
              && q[values[i].0.id] == Slot(values[i].0, Fulfilled(values[i].1))
    ensures forall x :: x in q && q[x].entry.form == Some(form) ==>
              exists i :: 0 <= i < |values| && values[i].0.id == x
  {
    forall x | x in q && q[x].entry.form == Some(form) ensures exists i :: 0 <= i < |values| && values[i].0.id == x {
      assert x in FormIds(q, form);
    }
  }

  lemma {:induction false} PutAt(q: Queue, values: seq<(PendingEntry, string)>, id: string)
    ensures id in Put(q, values) <==> id in q || exists i :: 0 <= i < |values| && values[i].0.id == id
    ensures (forall i :: 0 <= i < |values| ==> values[i].0.id != id) && id in q ==> Put(q, values)[id] == q[id]
    ensures DistinctIds(values) ==>
              forall i :: 0 <= i < |values| && values[i].0.id == id ==>
                Put(q, values)[id] == Slot(values[i].0, Fulfilled(values[i].1))
    decreases |values|
  {
    if values != [] {
      var k := |values| - 1;
      PutAt(q, values[..k], id);
      assert forall i :: 0 <= i < k ==> values[..k][i] == values[i];
    }
  }

  /** RESTORE INVERTS COLLECTION. Handing back what a wait collected leaves the queue
      exactly as it was before the wait. */
  lemma RestoreInvertsCollection(q: Queue, form: string, values: seq<(PendingEntry, string)>)
    requires WaitAnswers(q, form, Ready(values))
    ensures Put(WaitEffect(q, form, Ready(values)), values) == q
  {
    var rest := WithoutForm(q, form);
    var r := Put(rest, values);
    forall id ensures (id in r <==> id in q) && (id in q ==> r[id] == q[id]) {
      PutAt(rest, values, id);
      if id in q && id !in rest {
        assert id in FormIds(q, form);
        var i :| 0 <= i < |values| && values[i].0.id == id;
      }
    }
  }

  /** Fields of one form have different places in it. */
  predicate DistinctPlaces(q: Queue, form: string)
  {
    forall a, b :: a in FormIds(q, form) && b in FormIds(q, form) && a != b ==> q[a].entry.index != q[b].entry.index
  }

  /** The order of collection is then settled: a second wait collects the same list. */
  lemma CollectsOneWay(q: Queue, form: string, a: seq<(PendingEntry, string)>, b: seq<(PendingEntry, string)>)
    requires Collects(q, form, a) && Collects(q, form, b) && DistinctPlaces(q, form)
    ensures a == b
  {
    CollectsSize(q, form, a);
    CollectsSize(q, form, b);
    SamePrefix(q, form, a, b, |a|);
    assert a == a[..|a|] && b == b[..|b|];
  }

  function IdsOf(values: seq<(PendingEntry, string)>): set<string>
  {
    set i | 0 <= i < |values| :: values[i].0.id
  }

  lemma {:induction false} IdsCount(values: seq<(PendingEntry, string)>)
    requires DistinctIds(values)
    ensures |IdsOf(values)| == |values|
    decreases |values|
  {
    if values != [] {
      IdsCount(values[..|values|-1]);
      IdsOfLast(values);
    }
  }

  lemma IdsOfLast(values: seq<(PendingEntry, string)>)
    requires DistinctIds(values) && values != []
    ensures var k := |values| - 1;
            IdsOf(values) == IdsOf(values[..k]) + {values[k].0.id} && values[k].0.id !in IdsOf(values[..k])
  {
    var k := |values| - 1;
    forall id | id in IdsOf(values[..k]) ensures id in IdsOf(values) {
      var i :| 0 <= i < k && values[..k][i].0.id == id;
      assert values[i].0.id == id;
    }
    forall id | id in IdsOf(values) && id != values[k].0.id ensures id in IdsOf(values[..k]) {
      var i :| 0 <= i < |values| && values[i].0.id == id;
      assert values[..k][i].0.id == id;
    }
    assert values[k].0.id in IdsOf(values);
  }

  lemma CollectsSize(q: Queue, form: string, values: seq<(PendingEntry, string)>)
    requires Collects(q, form, values)
    ensures |values| == |FormIds(q, form)| && IdsOf(values) == FormIds(q, form)
  {
    IdsCount(values);
    forall id | id in FormIds(q, form) ensures id in IdsOf(values) {
      var i :| 0 <= i < |values| && values[i].0.id == id;
    }
    assert IdsOf(values) <= FormIds(q, form);
    assert IdsOf(values) == FormIds(q, form);
  }

  lemma {:induction false} SamePrefix(q: Queue, form: string, a: seq<(PendingEntry, string)>,
                                      b: seq<(PendingEntry, string)>, n: nat)
    requires Collects(q, form, a) && Collects(q, form, b) && DistinctPlaces(q, form)
    requires |a| == |b| && n <= |a|
    ensures a[..n] == b[..n]
    decreases n
  {
    if n > 0 {
      var k := n - 1;
      SamePrefix(q, form, a, b, k);
      PlaceAtMost(q, form, a, b, k);
      PlaceAtMost(q, form, b, a, k);
      assert a[k] == b[k];
      assert a[..n] == a[..k] + [a[k]] && b[..n] == b[..k] + [b[k]];
    }
  }

  /** The next value of one listing comes no later than the next of another. */
  lemma PlaceAtMost(q: Queue, form: string, a: seq<(PendingEntry, string)>, b: seq<(PendingEntry, string)>, k: nat)
    requires Collects(q, form, a) && Collects(q, form, b) && k < |a| && k < |b| && a[..k] == b[..k]
    ensures b[k].0.index <= a[k].0.index
    ensures a[k].0.id in FormIds(q, form) && q[a[k].0.id] == Slot(a[k].0, Fulfilled(a[k].1))
  {
    assert forall m :: 0 <= m < k ==> a[m] == a[..k][m] && b[m] == b[..k][m];
    var i :| 0 <= i < |b| && b[i].0.id == a[k].0.id;
    assert b[i].0 == a[k].0;
  }

  /** A restored form is collected again as the very same list. */
  lemma RestoredIsCollectable(q: Queue, form: string, values: seq<(PendingEntry, string)>, again: FormWait)
    requires WaitAnswers(q, form, Ready(values)) && DistinctPlaces(q, form)
    requires WaitAnswers(Put(WaitEffect(q, form, Ready(values)), values), form, again)
    ensures again == Ready(values)
  {
    RestoreInvertsCollection(q, form, values);
    CollectsOneWay(q, form, values, again.values);
  }

  /** A wait that does not end the form leaves the queue untouched. */
  lemma IdleWaitChangesNothing(q: Queue, form: string, answer: FormWait)
    requires WaitAnswers(q, form, answer)
    ensures WaitEffect(q, form, answer) == q <== answer == StillPending || answer == Unknown
    ensures answer.Ready? || answer == FormCancelled ==> FormIds(WaitEffect(q, form, answer), form) == {}
  {
  }

  // ------------------------------------------------------------ exact superseding

  /** All entries of a form are on one page. */
  predicate OnePage(q: Queue)
  {
    forall a, b :: a in q && b in q && q[a].entry.form.Some? && q[a].entry.form == q[b].entry.form ==>
      q[a].entry.page == q[b].entry.page
  }

  /** `ids` lists the entries of the form, each once, in the order of their places, their refs
      deciding where places are shared; and their refs are `refs`. */
  ghost predicate AsksFor(q: Queue, form: string, ids: seq<string>, refs: seq<Ref>)
  {
    && |ids| == |refs|
    && (forall i :: 0 <= i < |ids| ==>
          ids[i] in q && q[ids[i]].entry.form == Some(form) && q[ids[i]].entry.r == refs[i])
    && (forall i, j :: 0 <= i < j < |ids| ==>
          && ids[i] != ids[j]
          && q[ids[i]].entry.index <= q[ids[j]].entry.index
          && (q[ids[i]].entry.index == q[ids[j]].entry.index ==> refs[i] <= refs[j]))
    && (forall x :: x in q && q[x].entry.form == Some(form) ==> x in ids)
  }

  lemma AsksMeans(q: Queue, form: string, refs: seq<Ref>)
    ensures Asks(q, FormIds(q, form), refs) <==> exists ids :: AsksFor(q, form, ids, refs)
  {
    var s := FormIds(q, form);
    forall ids | Lists(q, ids, s) && RefsAt(q, ids) == refs ensures AsksFor(q, form, ids, refs) {
      assert forall i :: 0 <= i < |ids| ==> ids[i] in s;
      forall x | x in q && q[x].entry.form == Some(form) ensures x in ids {
        assert x in s;
        var i :| 0 <= i < |ids| && ids[i] == x;
      }
      forall i, j | 0 <= i < j < |ids|
        ensures q[ids[i]].entry.index <= q[ids[j]].entry.index
        ensures q[ids[i]].entry.index == q[ids[j]].entry.index ==> refs[i] <= refs[j]
      {
        assert FieldOrder(q[ids[i]].entry, q[ids[j]].entry);
      }
    }
    forall ids | AsksFor(q, form, ids, refs) ensures Lists(q, ids, s) && RefsAt(q, ids) == refs {
      forall x | x in s ensures exists i :: 0 <= i < |ids| && ids[i] == x { assert x in ids; }
    }
  }

  /** SUPERSEDE IS EXACT. It cancels the entries of all and only the forms on that page
      that nobody has touched and whose refs, place by place, are the ask. */
  lemma SupersedeExact(q: Queue, page: string, refs: seq<Ref>, dead: set<string>, id: string)
    requires OnePage(q) && id in q
    requires forall form :: form in dead <==> Dead(q, page, refs, form)
    ensures var e := q[id].entry;
            CancelForms(q, dead)[id]
            == if e.form.Some? && e.page == page
                  && (forall x :: x in q && q[x].entry.form == e.form ==> q[x].state == Pending)
                  && (exists ids :: AsksFor(q, e.form.value, ids, refs))
               then Slot(e, Cancelled) else q[id]
  {
    var e := q[id].entry;
    if e.form.Some? {
      var form := e.form.value;
      if e.page == page {
        assert PageFormIds(q, page, form) == FormIds(q, form);
        assert id in FormIds(q, form);
        AsksMeans(q, form, refs);
        hide Asks, AsksFor;
      } else {
        assert PageFormIds(q, page, form) == {};
      }
    }
  }

  /** `ids` are the entries of the form with strictly growing places, and `refs` their refs. */
  ghost predicate ShowsInPlaces(q: Queue, form: string, ids: seq<string>, refs: seq<Ref>)
  {
    && |ids| == |refs|
    && (forall i :: 0 <= i < |ids| ==>
          ids[i] in q && q[ids[i]].entry.form == Some(form) && q[ids[i]].entry.r == refs[i])
    && (forall i, j :: 0 <= i < j < |ids| ==> q[ids[i]].entry.index < q[ids[j]].entry.index)
    && (forall x :: x in q && q[x].entry.form == Some(form) ==> x in ids)
  }

  lemma GrowingPlaces(q: Queue, form: string, ids: seq<string>, refs: seq<Ref>)
    requires DistinctPlaces(q, form)
    ensures AsksFor(q, form, ids, refs) <==> ShowsInPlaces(q, form, ids, refs)
  {
    if AsksFor(q, form, ids, refs) {
      forall i, j | 0 <= i < j < |ids| ensures q[ids[i]].entry.index < q[ids[j]].entry.index {
        assert ids[i] in FormIds(q, form) && ids[j] in FormIds(q, form);
      }
    }
  }

  /** WITH DIFFERENT PLACES IN A FORM, as an ask makes them, that is: the form lies on the
      page, is wholly pending, and its entries in the order of their places show the refs
      asked for, one by one. */
  lemma SupersedeByPlaces(q: Queue, page: string, refs: seq<Ref>, dead: set<string>, id: string)
    requires OnePage(q) && id in q && q[id].entry.form.Some? && DistinctPlaces(q, q[id].entry.form.value)
    requires forall form :: form in dead <==> Dead(q, page, refs, form)
    ensures var e := q[id].entry;
            CancelForms(q, dead)[id]
            == if e.page == page
                  && (forall x :: x in q && q[x].entry.form == e.form ==> q[x].state == Pending)
                  && (exists ids :: ShowsInPlaces(q, e.form.value, ids, refs))
               then Slot(e, Cancelled) else q[id]
  {
    hide Dead, AsksFor, ShowsInPlaces;
    SupersedeExact(q, page, refs, dead, id);
    forall ids ensures AsksFor(q, q[id].entry.form.value, ids, refs)
           <==> ShowsInPlaces(q, q[id].entry.form.value, ids, refs) {
      GrowingPlaces(q, q[id].entry.form.value, ids, refs);
    }
  }

  // --------------------------------------------------------------------- runs

  /** One collection of a form, and whether its values were handed back. */
  datatype Delivery = Delivery(form: string, values: seq<(PendingEntry, string)>, returned: bool)

  datatype State = State(
    q: Queue,
    now: nat,
    used: set<string>,             // ids ever queued
    places: set<(string, nat)>,    // form and place of every field ever queued
    pages: map<string, string>,    // the page of every form
    typed: map<string, string>,    // what the human entered under each id
    deliveries: seq<Delivery>,
    taken: set<string>,            // single entries collected by their own waiter
    lost: set<string>)             // purged with a cancelled form, past their time, or given up

  datatype Action =
    | Enqueue(e: PendingEntry)
    | Insert(e: PendingEntry)
    | Fulfill(id: string, value: string)
    | Cancel(id: string)
    | Supersede(page: string, refs: seq<Ref>, dead: set<string>)
    | Wait(form: string, answer: FormWait)
    | Restore(k: nat)
    | List
    | Collect(id: string)
    | GiveUp(id: string)
    | Tick(seconds: nat)

  ghost predicate Enabled(s: State, a: Action)
  {
    match a
    case Enqueue(e) =>
      && e.id !in s.used && e.created == s.now
      && (e.form.Some? ==>
            && (e.form.value in s.pages ==> s.pages[e.form.value] == e.page)
            && (e.form.value, e.index) !in s.places)
    case Insert(e) => e.id !in s.used && e.created == s.now && e.form.None?
    case Supersede(page, refs, dead) => forall form :: form in dead <==> Dead(s.q, page, refs, form)
    case Wait(form, answer) => WaitAnswers(s.q, form, answer)
    case Restore(k) => k < |s.deliveries| && !s.deliveries[k].returned
    case Collect(id) => id in s.q && s.q[id].entry.form.None? && s.q[id].state.Fulfilled?
    case GiveUp(id) => id in s.q && s.q[id].entry.form.None?
    case _ => true
  }

  /** Ids whose value goes when the queue becomes `r`. */
  function Gone(q: Queue, r: Queue): set<string> { set id | id in q && q[id].state.Fulfilled? && id !in r }

  function Next(s: State, a: Action): State
    requires Enabled(s, a)
  {
    match a
    case Enqueue(e) =>
      s.(q := Enqueued(s.q, e, s.now), used := s.used + {e.id},
         places := if e.form.Some? then s.places + {(e.form.value, e.index)} else s.places,
         pages := if e.form.Some? then s.pages[e.form.value := e.page] else s.pages,
         lost := s.lost + Gone(s.q, Collected(s.q, s.now)))
    case Insert(e) => s.(q := s.q[e.id := Slot(e, Pending)], used := s.used + {e.id})
    case Fulfill(id, value) =>
      s.(q := Fulfilling(s.q, id, value), typed := if IsPending(s.q, id) then s.typed[id := value] else s.typed)
    case Cancel(id) => s.(q := Cancelling(s.q, id))
    case Supersede(page, refs, dead) => s.(q := CancelForms(s.q, dead))
    case Wait(form, answer) =>
      var t := s.(q := WaitEffect(s.q, form, answer));
      if answer.Ready? then t.(deliveries := s.deliveries + [Delivery(form, answer.values, false)])
      else t.(lost := s.lost + Gone(s.q, t.q))
    case Restore(k) =>
      s.(q := Put(s.q, s.deliveries[k].values), deliveries := s.deliveries[k := s.deliveries[k].(returned := true)])
    case List => s.(q := Collected(s.q, s.now), lost := s.lost + Gone(s.q, Collected(s.q, s.now)))
    case Collect(id) => s.(q := s.q - {id}, taken := s.taken + {id})
    case GiveUp(id) => s.(q := s.q - {id}, lost := s.lost + Gone(s.q, s.q - {id}))
    case Tick(n) => s.(now := s.now + n)
  }

  ghost predicate Possible(s: State, actions: seq<Action>)
    decreases |actions|
  {
    actions == [] || (Enabled(s, actions[0]) && Possible(Next(s, actions[0]), actions[1..]))
  }

  ghost function After(s: State, actions: seq<Action>): State
    requires Possible(s, actions)
    decreases |actions|
  {
    if actions == [] then s else After(Next(s, actions[0]), actions[1..])
  }

  const EMPTY := State(map[], 0, {}, {}, map[], map[], [], {}, {})

  // -------------------------------------------------------------- invariants

  predicate Holds(d: Delivery, id: string, value: string)
  {
    !d.returned && exists i :: 0 <= i < |d.values| && d.values[i].0.id == id && d.values[i].1 == value
  }

  ghost predicate Held(s: State, id: string)
  {
    id in s.typed && exists k :: 0 <= k < |s.deliveries| && Holds(s.deliveries[k], id, s.typed[id])
  }

  /** Every value ever typed is in the queue as typed, held by a caller that collected
      it, collected by its own waiter, or lost in one of the three ways. */
  ghost predicate Accounted(s: State)
  {
    forall id :: id in s.typed ==>
      || (id in s.q && s.q[id].state == Fulfilled(s.typed[id]))
      || Held(s, id)
      || id in s.taken
      || id in s.lost
  }

  ghost predicate GoodEntry(s: State, e: PendingEntry)
  {
    && e.id in s.used
    && (e.form.Some? ==>
          && (e.form.value, e.index) in s.places
          && e.form.value in s.pages && s.pages[e.form.value] == e.page)
  }

  ghost predicate GoodQueue(s: State)
  {
    && Keyed(s.q) && s.typed.Keys <= s.used
    && (forall id :: id in s.q ==> GoodEntry(s, s.q[id].entry))
    && (forall id :: id in s.q && s.q[id].state.Fulfilled? ==> id in s.typed && s.typed[id] == s.q[id].state.value)
    && (forall id :: id in s.q && id in s.typed ==> s.q[id].state.Fulfilled?)
  }

  ghost predicate GoodDelivery(s: State, d: Delivery)
  {
    && DistinctIds(d.values)
    && forall i :: 0 <= i < |d.values| ==>
         && GoodEntry(s, d.values[i].0)
         && d.values[i].0.id in s.typed && s.typed[d.values[i].0.id] == d.values[i].1
         && (!d.returned ==> d.values[i].0.id !in s.q)
  }

  predicate NoneShared(a: seq<(PendingEntry, string)>, b: seq<(PendingEntry, string)>)
  {
    forall i, j :: 0 <= i < |a| && 0 <= j < |b| ==> a[i].0.id != b[j].0.id
  }

  /** Where two deliveries share an entry, the earlier one was handed back. */
  ghost predicate Redelivered(s: State)
  {
    forall k, l :: 0 <= k < l < |s.deliveries| && !s.deliveries[k].returned ==>
      NoneShared(s.deliveries[k].values, s.deliveries[l].values)
  }

  ghost predicate Inv(s: State)
  {
    && GoodQueue(s)
    && (forall k :: 0 <= k < |s.deliveries| ==> GoodDelivery(s, s.deliveries[k]))
    && Redelivered(s) && Accounted(s)
  }

  lemma GoodQueueKept(s: State, a: Action)
    requires Inv(s) && Enabled(s, a)
    ensures GoodQueue(Next(s, a))
  {
    hide GoodQueue, GoodDelivery, Next, Accounted, Redelivered, WaitAnswers, Dead;
    match a {
      case Restore(k) => RestoreQueue(s, k);
      case Supersede(page, refs, dead) => SupersedeQueue(s, page, refs, dead);
      case Enqueue(_) => GrownQueue(s, a);
      case Insert(_) => GrownQueue(s, a);
      case Fulfill(id, value) => FulfilledQueue(s, id, value);
      case _ => SmallerQueue(s, a);
    }
  }

  lemma GrownQueue(s: State, a: Action)
    requires GoodQueue(s) && Enabled(s, a) && (a.Enqueue? || a.Insert?)
    ensures GoodQueue(Next(s, a))
  {
    hide GoodEntry;
    var t := Next(s, a);
    forall id | id in t.q ensures t.q[id].entry.id == id && GoodEntry(t, t.q[id].entry) {
      if id == a.e.id { NewEntryGood(s, a); } else { EntryStays(s, a, s.q[id].entry); }
    }
  }

  lemma NewEntryGood(s: State, a: Action)
    requires Enabled(s, a) && (a.Enqueue? || a.Insert?)
    ensures GoodEntry(Next(s, a), a.e)
  {
  }

  lemma SmallerQueue(s: State, a: Action)
    requires GoodQueue(s) && Enabled(s, a)
    requires !a.Restore? && !a.Supersede? && !a.Enqueue? && !a.Insert? && !a.Fulfill?
    ensures GoodQueue(Next(s, a))
  {
    hide GoodEntry, WaitAnswers, GoodQueue;
    ShrunkQueue(s, Next(s, a));
  }

  /** Entries may go, and entries without a value may change state. */
  lemma ShrunkQueue(s: State, t: State)
    requires GoodQueue(s)
    requires t.used == s.used && t.places == s.places && t.pages == s.pages && t.typed == s.typed
    requires forall id :: id in t.q ==>
               && id in s.q && t.q[id].entry == s.q[id].entry
               && (t.q[id] == s.q[id] || (s.q[id].state == Pending && t.q[id].state == Cancelled))
    ensures GoodQueue(t)
  {
    hide GoodEntry;
    forall id | id in t.q ensures GoodEntry(t, t.q[id].entry) {
      SameEntry(s, t, s.q[id].entry);
    }
  }

  lemma FulfilledQueue(s: State, id: string, value: string)
    requires GoodQueue(s)
    ensures GoodQueue(Next(s, Fulfill(id, value)))
  {
    hide GoodEntry;
    var t := Next(s, Fulfill(id, value));
    forall x | x in t.q ensures GoodEntry(t, t.q[x].entry) {
      SameEntry(s, t, s.q[x].entry);
    }
    if id in s.q { UsedId(s, s.q[id].entry); }
  }

  lemma UsedId(s: State, e: PendingEntry)
    requires GoodEntry(s, e)
    ensures e.id in s.used
  {
  }

  lemma RestoreQueue(s: State, k: nat)
    requires Inv(s) && Enabled(s, Restore(k))
    ensures GoodQueue(Next(s, Restore(k)))
  {
    hide GoodEntry, Accounted, Redelivered;
    RestoredQueue(s, k);
    var t, u := Next(s, Restore(k)), s.(q := Put(s.q, s.deliveries[k].values));
    forall id | id in t.q ensures GoodEntry(t, t.q[id].entry) {
      SameEntry(u, t, t.q[id].entry);
    }
  }

  lemma SupersedeQueue(s: State, page: string, refs: seq<Ref>, dead: set<string>)
    requires GoodQueue(s) && Enabled(s, Supersede(page, refs, dead))
    ensures GoodQueue(Next(s, Supersede(page, refs, dead)))
  {
    hide GoodEntry, Dead;
    var t := Next(s, Supersede(page, refs, dead));
    forall id | id in t.q
      ensures t.q[id].entry == s.q[id].entry && GoodEntry(t, t.q[id].entry)
      ensures s.q[id].state.Fulfilled? ==> t.q[id] == s.q[id]
    {
      SameEntry(s, t, s.q[id].entry);
      if s.q[id].state.Fulfilled? { UntouchedFormsStay(s, page, refs, dead, id); }
    }
  }

  lemma RestoredQueue(s: State, k: nat)
    requires GoodQueue(s) && k < |s.deliveries| && GoodDelivery(s, s.deliveries[k])
    ensures GoodQueue(s.(q := Put(s.q, s.deliveries[k].values)))
  {
    hide GoodEntry;
    var d := s.deliveries[k];
    var t := s.(q := Put(s.q, d.values));
    forall id | id in t.q
      ensures t.q[id].entry.id == id && GoodEntry(t, t.q[id].entry)
      ensures t.q[id].state.Fulfilled? <==> id in t.typed
      ensures t.q[id].state.Fulfilled? ==> s.typed[id] == t.q[id].state.value
    {
      PutAt(s.q, d.values, id);
      SameEntry(s, t, t.q[id].entry);
    }
  }

  lemma DeliveriesKept(s: State, a: Action, k: nat)
    requires Inv(s) && Enabled(s, a) && k < |Next(s, a).deliveries|
    ensures GoodDelivery(Next(s, a), Next(s, a).deliveries[k])
  {
    hide WaitAnswers, Dead, Accounted, Redelivered, GoodDelivery, GoodQueue, Next, Enabled;
    if a.Wait? {
      WaitDeliveries(s, a.form, a.answer, k);
    } else if a.Restore? {
      RestoreDeliveries(s, a.k, k);
    } else {
      OldDelivery(s, a, k);
    }
  }

  lemma WaitDeliveries(s: State, form: string, answer: FormWait, k: nat)
    requires Inv(s) && Enabled(s, Wait(form, answer)) && k < |Next(s, Wait(form, answer)).deliveries|
    ensures GoodDelivery(Next(s, Wait(form, answer)), Next(s, Wait(form, answer)).deliveries[k])
  {
    hide Accounted, Redelivered;
    if k == |s.deliveries| {
      NewDelivery(s, form, answer);
    } else {
      assert GoodDelivery(s, s.deliveries[k]);
    }
  }

  lemma RestoreDeliveries(s: State, r: nat, k: nat)
    requires Inv(s) && Enabled(s, Restore(r)) && k < |Next(s, Restore(r)).deliveries|
    ensures GoodDelivery(Next(s, Restore(r)), Next(s, Restore(r)).deliveries[k])
  {
    assert GoodDelivery(s, s.deliveries[k]);
    if k != r { OthersUntouched(s, r, k); }
  }

  lemma OldDelivery(s: State, a: Action, k: nat)
    requires Inv(s) && Enabled(s, a) && !a.Wait? && !a.Restore? && k < |Next(s, a).deliveries|
    ensures GoodDelivery(Next(s, a), Next(s, a).deliveries[k])
  {
    hide Accounted, Redelivered, WaitAnswers, Dead;
    var t, d := Next(s, a), s.deliveries[k];
    assert GoodDelivery(s, d) && t.deliveries[k] == d;
    forall i | 0 <= i < |d.values|
      ensures GoodEntry(t, d.values[i].0)
      ensures d.values[i].0.id in t.typed && t.typed[d.values[i].0.id] == d.values[i].1
      ensures !d.returned ==> d.values[i].0.id !in t.q
    {
      EntryStays(s, a, d.values[i].0);
    }
  }

  lemma EntryStays(s: State, a: Action, e: PendingEntry)
    requires GoodEntry(s, e) && Enabled(s, a)
    ensures GoodEntry(Next(s, a), e)
  {
    hide WaitAnswers, Dead;
  }

  lemma NewDelivery(s: State, form: string, answer: FormWait)
    requires GoodQueue(s) && WaitAnswers(s.q, form, answer) && answer.Ready?
    ensures GoodDelivery(Next(s, Wait(form, answer)), Delivery(form, answer.values, false))
  {
  }

  lemma OthersUntouched(s: State, r: nat, k: nat)
    requires Inv(s) && r < |s.deliveries| && k < |s.deliveries| && k != r && !s.deliveries[r].returned
    ensures GoodDelivery(Next(s, Restore(r)), s.deliveries[k])
  {
    hide GoodQueue, Accounted, GoodEntry;
    var d, e := s.deliveries[k], s.deliveries[r];
    assert !d.returned ==> NoneShared(d.values, e.values) || NoneShared(e.values, d.values);
    forall i | 0 <= i < |d.values| ensures !d.returned ==> d.values[i].0.id !in Put(s.q, e.values) {
      PutAt(s.q, e.values, d.values[i].0.id);
    }
    forall i | 0 <= i < |d.values| ensures GoodEntry(Next(s, Restore(r)), d.values[i].0) {
      SameEntry(s, Next(s, Restore(r)), d.values[i].0);
    }
  }

  lemma SameEntry(s: State, t: State, e: PendingEntry)
    requires GoodEntry(s, e) && t.used == s.used && t.places == s.places && t.pages == s.pages
    ensures GoodEntry(t, e)
  {
  }

  lemma RedeliveredKept(s: State, a: Action)
    requires Inv(s) && Enabled(s, a)
    ensures Redelivered(Next(s, a))
  {
    hide Accounted, GoodEntry, Dead;
    var t := Next(s, a);
    forall k, l | 0 <= k < l < |t.deliveries| && !t.deliveries[k].returned
      ensures NoneShared(t.deliveries[k].values, t.deliveries[l].values)
    {
      assert s.deliveries[k].values == t.deliveries[k].values && !s.deliveries[k].returned;
      if l == |s.deliveries| {
        assert GoodDelivery(s, s.deliveries[k]);
      } else {
        assert s.deliveries[l].values == t.deliveries[l].values;
      }
    }
  }

  lemma TypedStays(s: State, a: Action, id: string)
    requires Enabled(s, a) && id in s.typed && (a.Fulfill? && a.id == id ==> !IsPending(s.q, id))
    ensures id in Next(s, a).typed && Next(s, a).typed[id] == s.typed[id]
  {
    hide WaitAnswers, Dead, Enqueued, Collected, CancelForms, WaitEffect, Put, Gone;
  }

  lemma DeliveryStays(s: State, a: Action, k: nat)
    requires Enabled(s, a) && k < |s.deliveries| && (a.Restore? ==> a.k != k)
    ensures k < |Next(s, a).deliveries| && Next(s, a).deliveries[k] == s.deliveries[k]
  {
    hide WaitAnswers, Dead, Enqueued, Collected, CancelForms, WaitEffect, Put, Gone;
  }

  lemma RestoreStep(s: State, a: Action)
    requires Enabled(s, a) && a.Restore?
    ensures a.k < |s.deliveries| && Next(s, a).q == Put(s.q, s.deliveries[a.k].values)
  {
    hide Put;
  }

  lemma HeldKept(s: State, a: Action, id: string)
    requires Inv(s) && Enabled(s, a) && Held(s, id) && id in s.typed
    ensures var t := Next(s, a);
            && id in t.typed && t.typed[id] == s.typed[id]
            && (Held(t, id) || (id in t.q && t.q[id].state == Fulfilled(t.typed[id])))
  {
    hide Accounted, Enabled, GoodEntry, Next, Put;
    var k :| 0 <= k < |s.deliveries| && Holds(s.deliveries[k], id, s.typed[id]);
    var i :| 0 <= i < |s.deliveries[k].values| && s.deliveries[k].values[i].0.id == id;
    assert GoodDelivery(s, s.deliveries[k]);
    TypedStays(s, a, id);
    if a.Restore? && a.k == k {
      PutAt(s.q, s.deliveries[k].values, id);
      RestoreStep(s, a);
    } else {
      DeliveryStays(s, a, k);
    }
  }

  /** Where a fulfilled entry may go other than by a form's wait, a restore or a superseding. */
  lemma QueuedStays(s: State, a: Action, id: string)
    requires Inv(s) && Enabled(s, a) && id in s.q && s.q[id].state.Fulfilled?
    requires !a.Wait? && !a.Restore? && !a.Supersede?
    ensures var t := Next(s, a); (id in t.q && t.q[id] == s.q[id]) || id in t.taken || id in t.lost
  {
    hide Accounted, GoodEntry, Redelivered, GoodDelivery;
    if a.Enqueue? || a.Insert? { UsedId(s, s.q[id].entry); }
  }

  lemma QueuedKept(s: State, a: Action, id: string)
    requires Inv(s) && Enabled(s, a)
    requires id in s.typed && id in s.q && s.q[id].state == Fulfilled(s.typed[id])
    ensures var t := Next(s, a);
            && id in t.typed && t.typed[id] == s.typed[id]
            && ((id in t.q && t.q[id] == s.q[id]) || Held(t, id) || id in t.taken || id in t.lost)
  {
    hide Accounted, GoodEntry, Redelivered;
    TypedStays(s, a, id);
    match a {
      case Wait(form, answer) =>
        if answer.Ready? && id in FormIds(s.q, form) { CollectedIsHeld(s, form, answer, id); }
      case Restore(k) =>
        assert GoodDelivery(s, s.deliveries[k]);
        PutAt(s.q, s.deliveries[k].values, id);
      case Supersede(page, refs, dead) => UntouchedFormsStay(s, page, refs, dead, id);
      case _ =>
        hide Next, Enabled;
        QueuedStays(s, a, id);
    }
  }

  lemma CollectedIsHeld(s: State, form: string, answer: FormWait, id: string)
    requires WaitAnswers(s.q, form, answer) && answer.Ready? && id in FormIds(s.q, form)
    requires id in s.typed && s.q[id].state == Fulfilled(s.typed[id])
    ensures Held(Next(s, Wait(form, answer)), id)
  {
    var t := Next(s, Wait(form, answer));
    var i :| 0 <= i < |answer.values| && answer.values[i].0.id == id;
    assert Holds(t.deliveries[|s.deliveries|], id, s.typed[id]);
  }

  /** A form with a fulfilled field is never superseded. */
  lemma UntouchedFormsStay(s: State, page: string, refs: seq<Ref>, dead: set<string>, id: string)
    requires GoodQueue(s) && forall form :: form in dead <==> Dead(s.q, page, refs, form)
    requires id in s.q && s.q[id].state.Fulfilled?
    ensures CancelForms(s.q, dead)[id] == s.q[id]
  {
    var e := s.q[id].entry;
    if e.form.Some? {
      var form := e.form.value;
      assert GoodEntry(s, e);
      if e.page == page {
        assert id in PageFormIds(s.q, page, form);
      } else {
        forall x | x in s.q && s.q[x].entry.form == Some(form) ensures s.q[x].entry.page != page {
          assert GoodEntry(s, s.q[x].entry);
        }
        assert PageFormIds(s.q, page, form) == {};
      }
    }
  }

  lemma AccountedKept(s: State, a: Action)
    requires Inv(s) && Enabled(s, a)
    ensures Accounted(Next(s, a))
  {
    hide Held, Redelivered, GoodDelivery, WaitAnswers, Dead;
    var t := Next(s, a);
    forall id | id in t.typed
      ensures (id in t.q && t.q[id].state == Fulfilled(t.typed[id])) || Held(t, id) || id in t.taken || id in t.lost
    {
      if id in s.typed && !(a.Fulfill? && a.id == id && IsPending(s.q, id)) {
        if id in s.q && s.q[id].state == Fulfilled(s.typed[id]) {
          QueuedKept(s, a, id);
        } else if Held(s, id) {
          HeldKept(s, a, id);
        }
      }
    }
  }

  lemma InvKept(s: State, a: Action)
    requires Inv(s) && Enabled(s, a)
    ensures Inv(Next(s, a))
  {
    hide GoodQueue, GoodDelivery, Redelivered, Accounted, Next, Enabled;
    GoodQueueKept(s, a);
    forall k | 0 <= k < |Next(s, a).deliveries| ensures GoodDelivery(Next(s, a), Next(s, a).deliveries[k]) {
      DeliveriesKept(s, a, k);
    }
    RedeliveredKept(s, a);
    AccountedKept(s, a);
  }

  lemma {:induction false} InvAlways(s: State, actions: seq<Action>)
    requires Inv(s) && Possible(s, actions)
    ensures Inv(After(s, actions))
    decreases |actions|
  {
    hide Inv, Next, Enabled;
    if actions != [] {
      InvKept(s, actions[0]);
      InvAlways(Next(s, actions[0]), actions[1..]);
    }
  }

  lemma EmptyInv()
    ensures Inv(EMPTY)
  {
  }

  /** WHAT A STEP DOES. A queued entry is pending, a value entered is in the queue and on
      record, a cancelled entry is cancelled; after an ask supersedes, no untouched form on its
      page asks the same; a form collected, or an entry taken or given up, is gone; and what is
      handed back is there again with its values. */
  lemma StepTakesHold(s: State, a: Action)
    requires Inv(s) && Enabled(s, a)
    ensures var t := Next(s, a);
            && (a.Enqueue? || a.Insert? ==> a.e.id in t.q && t.q[a.e.id] == Slot(a.e, Pending))
            && (a.Fulfill? && IsPending(s.q, a.id) ==>
                  && a.id in t.q && t.q[a.id].state == Fulfilled(a.value)
                  && a.id in t.typed && t.typed[a.id] == a.value)
            && (a.Cancel? && IsPending(s.q, a.id) ==> a.id in t.q && t.q[a.id].state == Cancelled)
            && (a.Supersede? ==> forall form :: !Dead(t.q, a.page, a.refs, form))
            && (a.Wait? && (a.answer.Ready? || a.answer == FormCancelled) ==> FormIds(t.q, a.form) == {})
            && (a.Collect? || a.GiveUp? ==> a.id !in t.q)
            && (a.Restore? ==>
                  forall i :: 0 <= i < |s.deliveries[a.k].values| ==>
                    var v := s.deliveries[a.k].values[i]; v.0.id in t.q && t.q[v.0.id] == Slot(v.0, Fulfilled(v.1)))
            && (a.List? ==> forall x :: x in t.q <==> x in s.q && s.now < s.q[x].entry.created + 1800)
            && (a.Tick? ==> t.now == s.now + a.seconds)
  {
    hide WaitAnswers, Dead, Accounted, Redelivered;
    match a {
      case Supersede(page, refs, dead) => NoneDeadAfter(s.q, page, refs, dead);
      case Restore(k) =>
        assert GoodDelivery(s, s.deliveries[k]);
        var values := s.deliveries[k].values;
        forall i | 0 <= i < |values|
          ensures values[i].0.id in Put(s.q, values)
          ensures Put(s.q, values)[values[i].0.id] == Slot(values[i].0, Fulfilled(values[i].1))
        {
          PutAt(s.q, values, values[i].0.id);
        }
      case _ =>
    }
  }

  lemma NoneDeadAfter(q: Queue, page: string, refs: seq<Ref>, dead: set<string>)
    requires forall form :: form in dead <==> Dead(q, page, refs, form)
    ensures forall form :: !Dead(CancelForms(q, dead), page, refs, form)
  {
    var t := CancelForms(q, dead);
    forall form ensures !Dead(t, page, refs, form) {
      if Dead(t, page, refs, form) { StillDead(q, dead, page, refs, form); }
    }
  }

  /** A form that is dead after the superseding was dead before, and so has been cancelled. */
  lemma StillDead(q: Queue, dead: set<string>, page: string, refs: seq<Ref>, form: string)
    requires Dead(CancelForms(q, dead), page, refs, form)
    ensures form !in dead && Dead(q, page, refs, form)
  {
    hide Lists, RefsAt, Asks;
    var t := CancelForms(q, dead);
    var s := PageFormIds(t, page, form);
    assert s == PageFormIds(q, page, form);
    var id :| id in s;
    assert t[id].state == Pending;
    forall x | x in s ensures x in q && q[x] == t[x] { assert q[x].entry.form == Some(form); }
    SameAsked(t, q, s, refs);
  }

  lemma SameAsked(t: Queue, q: Queue, s: set<string>, refs: seq<Ref>)
    requires forall x :: x in s ==> x in q && x in t && q[x] == t[x]
    requires Asks(t, s, refs)
    ensures Asks(q, s, refs)
  {
    hide FieldOrder;
    var ids :| Lists(t, ids, s) && RefsAt(t, ids) == refs;
    CoversIn(ids, s);
    assert InFieldOrder(q, ids);
    assert Lists(q, ids, s) && RefsAt(q, ids) == refs;
  }

  /** WHAT BECOMES OF A PENDING ENTRY, in any reachable state: it goes only past its half hour,
      with its cancelled form, or given up by its waiter; and it changes only when it is filled
      in, cancelled, or superseded with its form. */
  lemma PendingFate(s: State, a: Action, id: string)
    requires Inv(s) && Enabled(s, a) && id in s.q && s.q[id].state == Pending
    ensures var t, e := Next(s, a), s.q[id].entry;
            && (id !in t.q <==>
                  || ((a.Enqueue? || a.List?) && s.now >= e.created + 1800)
                  || (a.Wait? && a.answer == FormCancelled && e.form == Some(a.form))
                  || a == GiveUp(id))
            && (id in t.q ==>
                  t.q[id] == if a.Fulfill? && a.id == id then Slot(e, Fulfilled(a.value))
                             else if a == Cancel(id) || (a.Supersede? && e.form.Some? && e.form.value in a.dead)
                             then Slot(e, Cancelled) else s.q[id])
  {
    hide Accounted, Redelivered, Dead;
    if a.Enqueue? || a.Insert? { UsedId(s, s.q[id].entry); }
    if a.Restore? {
      assert GoodDelivery(s, s.deliveries[a.k]);
      PutAt(s.q, s.deliveries[a.k].values, id);
    }
    if a.Wait? && a.answer.Ready? { WaitExact(s.q, a.form, a.answer); }
    hide WaitAnswers, GoodEntry;
  }

  /** WHAT IS TYPED IS COLLECTED. In every reachable state, a wait for a form all of whose fields
      have been filled in returns what was typed into each, field by field. */
  lemma TypedIsCollected(actions: seq<Action>, form: string, answer: FormWait)
    requires Possible(EMPTY, actions)
    requires var s := After(EMPTY, actions);
             && WaitAnswers(s.q, form, answer) && (exists x :: x in s.q && s.q[x].entry.form == Some(form))
             && forall x :: x in s.q && s.q[x].entry.form == Some(form) ==> x in s.typed
    ensures var s := After(EMPTY, actions);
            && answer.Ready?
            && forall i :: 0 <= i < |answer.values| ==>
                 && answer.values[i].0.id in s.typed
                 && answer.values[i].1 == s.typed[answer.values[i].0.id]
  {
    hide Accounted, Redelivered, GoodDelivery, WaitAnswers, GoodEntry;
    EmptyInv();
    InvAlways(EMPTY, actions);
    var s := After(EMPTY, actions);
    WaitExact(s.q, form, answer);
    if answer.Ready? { ReadyCollects(s.q, form, answer); }
  }

  lemma ReadyCollects(q: Queue, form: string, answer: FormWait)
    requires WaitAnswers(q, form, answer) && answer.Ready?
    ensures forall i :: 0 <= i < |answer.values| ==>
              && answer.values[i].0.id in q && answer.values[i].0.form == Some(form)
              && q[answer.values[i].0.id] == Slot(answer.values[i].0, Fulfilled(answer.values[i].1))
  {
    CollectedExact(q, form, answer.values);
  }

  /** QUEUE LEDGER. Over every run, each value ever typed is where it should be, and no
      entry is delivered twice unless the earlier delivery was handed back. */
  lemma NothingTypedVanishes(actions: seq<Action>)
    requires Possible(EMPTY, actions)
    ensures Accounted(After(EMPTY, actions)) && Redelivered(After(EMPTY, actions))
  {
    assert Inv(EMPTY);
    InvAlways(EMPTY, actions);
  }

  /** THE LOG IS TRUE. What a step adds to the lost values was in the queue, typed, and is gone:
      with its cancelled form, past its half hour, or given up by its waiter; what it adds to
      the collected ones went to its own waiter; and a new delivery is what a wait collected. */
  lemma LossesAreReal(s: State, a: Action, id: string)
    requires Inv(s) && Enabled(s, a)
    ensures id in Next(s, a).lost && id !in s.lost ==>
              && id in s.q && s.q[id].state.Fulfilled? && id !in Next(s, a).q
              && (|| ((a.Enqueue? || a.List?) && s.now >= s.q[id].entry.created + 1800)
                  || (a.Wait? && a.answer == FormCancelled && s.q[id].entry.form == Some(a.form))
                  || a == GiveUp(id))
    ensures id in Next(s, a).taken && id !in s.taken ==>
              a == Collect(id) && id in s.q && s.q[id].state.Fulfilled? && id !in Next(s, a).q
    ensures |Next(s, a).deliveries| >= |s.deliveries|
    ensures |Next(s, a).deliveries| > |s.deliveries| <==> a.Wait? && a.answer.Ready?
    ensures a.Wait? && a.answer.Ready? ==>
              Next(s, a).deliveries == s.deliveries + [Delivery(a.form, a.answer.values, false)]
  {
    hide Dead, WaitAnswers, Put, CancelForms, Accounted, Redelivered, GoodDelivery;
    if a.Enqueue? && id in s.q { UsedId(s, s.q[id].entry); }
  }

  /** The ways out other than by a form's wait. */
  lemma LeavesSingly(s: State, a: Action, id: string)
    requires Inv(s) && Enabled(s, a) && id in s.q && s.q[id].state.Fulfilled?
    requires !a.Wait? && !a.Restore? && !a.Supersede?
    ensures var t, e := Next(s, a), s.q[id].entry;
            if id in t.q then t.q[id] == s.q[id]
            else
              || ((a.Enqueue? || a.List?) && Expired(e, s.now))
              || ((a.Collect? || a.GiveUp?) && a.id == id && e.form.None?)
  {
    hide Accounted, GoodEntry, Redelivered, GoodDelivery;
    if a.Enqueue? || a.Insert? { UsedId(s, s.q[id].entry); }
  }

  /** In any reachable state a fulfilled entry keeps its value at every step, and leaves the
      queue only with its own form, past its time, or by its own waiter. */
  lemma FulfilledLeavesOnly(s: State, a: Action, id: string)
    requires Inv(s) && Enabled(s, a) && id in s.q && s.q[id].state.Fulfilled?
    ensures var t, e := Next(s, a), s.q[id].entry;
            if id in t.q then t.q[id] == s.q[id]
            else
              || (a.Wait? && e.form == Some(a.form) && (a.answer.Ready? || a.answer == FormCancelled))
              || ((a.Enqueue? || a.List?) && Expired(e, s.now))
              || ((a.Collect? || a.GiveUp?) && a.id == id && e.form.None?)
  {
    hide Dead, Accounted, GoodEntry, Redelivered;
    match a {
      case Wait(_, _) =>
      case Supersede(page, refs, dead) => UntouchedFormsStay(s, page, refs, dead, id);
      case Restore(k) =>
        assert GoodDelivery(s, s.deliveries[k]);
        PutAt(s.q, s.deliveries[k].values, id);
      case _ =>
        hide Next, Enabled;
        LeavesSingly(s, a, id);
    }
  }
}
