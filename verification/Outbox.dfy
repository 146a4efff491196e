/** internal/protocol/session/outbox.go: events awaiting an ack, keyed by trimmed event id. */
module Outbox {
  import opened Bytes
  import opened Errors

  datatype PendingEvent = PendingEvent(eventID: bytes, commandID: bytes, ghostID: bytes, attempts: nat, queuedAt: int,
                                       lastAttemptAt: int, ackDeadlineAt: int, lastError: bytes)

  type Items = map<bytes, PendingEvent>

  /** Every item is under its own trimmed event id. */
  predicate Keyed(items: Items)
  {
    forall k :: k in items ==> k != [] && TrimSpace(items[k].eventID) == k
  }

  function Upserted(items: Items, item: PendingEvent): Items
  {
    if Blank(item.eventID) then items else items[TrimSpace(item.eventID) := item]
  }

  /** One more attempt on an event that is in the box; nothing on any other. */
  function Marked(items: Items, eventID: bytes, at: int, lastErr: bytes): (Items, Option<PendingEvent>)
  {
    var key := TrimSpace(eventID);
    if key !in items then (items, None)
    else
      var item := items[key].(attempts := items[key].attempts + 1, lastAttemptAt := at, lastError := TrimSpace(lastErr));
      (items[key := item], Some(item))
  }

  function Removed(items: Items, eventID: bytes): Items { items - {TrimSpace(eventID)} }

  // ---------------------------------------------------------------- order

  /** Go's order on strings: bytewise. */
  predicate Less(a: bytes, b: bytes)
  {
    if b == [] then false
    else if a == [] then true
    else a[0] < b[0] || (a[0] == b[0] && Less(a[1..], b[1..]))
  }

  lemma {:induction false} LessTotal(a: bytes, b: bytes)
    ensures a == b || Less(a, b) || Less(b, a)
    ensures !(Less(a, b) && Less(b, a)) && !Less(a, a)
  {
    if a != [] && b != [] {
      LessTotal(a[1..], b[1..]);
      if a[0] == b[0] && a[1..] == b[1..] { assert a == [a[0]] + a[1..] && b == [b[0]] + b[1..]; }
    }
    if a != [] { LessTotal(a[1..], a[1..]); }
  }

  lemma {:induction false} LessTransitive(a: bytes, b: bytes, c: bytes)
    requires Less(a, b) && Less(b, c)
    ensures Less(a, c)
  {
    if a != [] && a[0] == b[0] && b[0] == c[0] { LessTransitive(a[1..], b[1..], c[1..]); }
  }

  predicate Sorted(s: seq<PendingEvent>)
  {
    forall i, j :: 0 <= i < j < |s| ==> Less(s[i].eventID, s[j].eventID)
  }

  /** The snapshot of a box: every item once, in event id order. */
  predicate Lists(items: Items, out: seq<PendingEvent>)
  {
    && Sorted(out)
    && (forall x :: x in out ==> TrimSpace(x.eventID) in items && items[TrimSpace(x.eventID)] == x)
    && (forall k :: k in items ==> items[k] in out)
  }

  /** Nothing in a sorted list comes before an element that is below all of it. */
  lemma FirstIsLeast(a: seq<PendingEvent>, b: seq<PendingEvent>)
    requires Sorted(a) && Sorted(b) && a != [] && b != [] && (forall x :: x in a <==> x in b)
    ensures a[0] == b[0]
  {
    hide Less;
    assert a[0] in b && b[0] in a;
    var i :| 0 <= i < |b| && b[i] == a[0];
    var j :| 0 <= j < |a| && a[j] == b[0];
    LessTotal(a[0].eventID, b[0].eventID);
  }

  lemma {:induction false} SortedDetermined(a: seq<PendingEvent>, b: seq<PendingEvent>)
    requires Sorted(a) && Sorted(b) && (forall x :: x in a <==> x in b)
    ensures a == b
  {
    hide Less;
    assert (a == [] || a[0] in a) && (b == [] || b[0] in b);
    if a != [] && b != [] {
      FirstIsLeast(a, b);
      TailMembers(a, b);
      SortedDetermined(a[1..], b[1..]);
      assert a == [a[0]] + a[1..] && b == [b[0]] + b[1..];
    }
  }

  lemma TailMembers(a: seq<PendingEvent>, b: seq<PendingEvent>)
    requires Sorted(a) && Sorted(b) && a != [] && b != [] && a[0] == b[0] && (forall x :: x in a <==> x in b)
    ensures Sorted(a[1..]) && Sorted(b[1..]) && (forall x :: x in a[1..] <==> x in b[1..])
  {
    hide Less;
    forall x ensures x in a[1..] <==> x in b[1..] {
      LessTotal(a[0].eventID, a[0].eventID);
      TailOf(a, x);
      TailOf(b, x);
    }
  }

  lemma TailOf(a: seq<PendingEvent>, x: PendingEvent)
    requires Sorted(a) && a != []
    ensures x in a[1..] <==> x in a && x != a[0]
  {
    hide Less;
    LessTotal(a[0].eventID, a[0].eventID);
    if x in a && x != a[0] {
      var i :| 0 <= i < |a| && a[i] == x;
      assert a[1..][i - 1] == x;
    }
    if x in a[1..] {
      var i :| 0 <= i < |a[1..]| && a[1..][i] == x;
      assert a[i + 1] == x;
    }
  }

  /** The snapshot does not depend on the order the map is visited in. */
  lemma ListingDetermined(items: Items, a: seq<PendingEvent>, b: seq<PendingEvent>)
    requires Lists(items, a) && Lists(items, b)
    ensures a == b
  {
    hide Less;
    SortedDetermined(a, b);
  }

  // ---------------------------------------------------------------- the code

  class EventOutbox {
    var items: Items

    constructor ()
      ensures items == map[] && Keyed(items)
    {
      items := map[];
    }

    method Upsert(item: PendingEvent)
      requires Keyed(items)
      modifies this
      ensures items == Upserted(old(items), item) && Keyed(items)
    {
      hide TrimSpace;
      var key := TrimSpace(item.eventID);
      if key == [] { return; }
      items := items[key := item];
    }

    method MarkAttempt(eventID: bytes, at: int, lastErr: bytes) returns (r: Option<PendingEvent>)
      requires Keyed(items)
      modifies this
      ensures (items, r) == Marked(old(items), eventID, at, lastErr) && Keyed(items)
    {
      hide TrimSpace;
      var key := TrimSpace(eventID);
      if key !in items { return None; }
      var item := items[key];
      item := item.(attempts := item.attempts + 1, lastAttemptAt := at, lastError := TrimSpace(lastErr));
      items := items[key := item];
      return Some(item);
    }

    method Remove(eventID: bytes)
      requires Keyed(items)
      modifies this
      ensures items == Removed(old(items), eventID) && Keyed(items)
    {
      hide TrimSpace;
      items := items - {TrimSpace(eventID)};
    }

    method Get(eventID: bytes) returns (r: Option<PendingEvent>)
      ensures r == if TrimSpace(eventID) in items then Some(items[TrimSpace(eventID)]) else None
    {
      var key := TrimSpace(eventID);
      return if key in items then Some(items[key]) else None;
    }

    method List() returns (out: seq<PendingEvent>)
      requires Keyed(items)
      ensures Lists(items, out)
    {
      hide Less, TrimSpace;
      out := [];
      var left := items.Keys;
      while left != {}
        invariant left <= items.Keys && Sorted(out)
        invariant forall x :: x in out ==> TrimSpace(x.eventID) in items && items[TrimSpace(x.eventID)] == x
                                           && TrimSpace(x.eventID) !in left
        invariant forall k :: k in items && k !in left ==> items[k] in out
      {
        var k :| k in left;
        out := Insert(out, items[k]);
        left := left - {k};
      }
    }
  }

  /** Puts an item with a new event id in its place, as sort.Slice would. */
  method Insert(s: seq<PendingEvent>, x: PendingEvent) returns (out: seq<PendingEvent>)
    requires Sorted(s) && forall y :: y in s ==> y.eventID != x.eventID
    ensures Sorted(out) && forall y :: y in out <==> y in s || y == x
  {
    hide Less;
    var i := 0;
    while i < |s| && Less(s[i].eventID, x.eventID)
      invariant 0 <= i <= |s| && forall j :: 0 <= j < i ==> Less(s[j].eventID, x.eventID)
    {
      i := i + 1;
    }
    forall j | i <= j < |s| ensures Less(x.eventID, s[j].eventID) {
      LessTotal(s[i].eventID, x.eventID);
      if j > i { LessTransitive(x.eventID, s[i].eventID, s[j].eventID); }
    }
    out := s[..i] + [x] + s[i..];
    InsertedSorted(s, x, i);
    assert s == s[..i] + s[i..];
  }

  lemma InsertedSorted(s: seq<PendingEvent>, x: PendingEvent, i: nat)
    requires Sorted(s) && i <= |s|
    requires forall j :: 0 <= j < i ==> Less(s[j].eventID, x.eventID)
    requires forall j :: i <= j < |s| ==> Less(x.eventID, s[j].eventID)
    ensures Sorted(s[..i] + [x] + s[i..])
  {
    hide Less;
    var out := s[..i] + [x] + s[i..];
    forall a, b | 0 <= a < b < |out| ensures Less(out[a].eventID, out[b].eventID) {
      if a < i && b > i { assert Less(s[a].eventID, s[b - 1].eventID); }
    }
  }

  // ---------------------------------------------------------------- order and counting

  /** One string comes before another exactly when it is a proper prefix of it, or has the smaller byte where they first
      differ. */
  lemma {:induction false} LessMeans(a: bytes, b: bytes)
    ensures Less(a, b) <==> exists i: nat :: Differ(a, b, i)
    decreases |a|
  {
    if a != [] && b != [] {
      LessMeans(a[1..], b[1..]);
      if Less(a, b) {
        if a[0] < b[0] {
          assert Differ(a, b, 0);
        } else {
          var i: nat :| Differ(a[1..], b[1..], i);
          assert a == [a[0]] + a[1..] && b == [b[0]] + b[1..];
          assert a[..i + 1] == [a[0]] + a[1..][..i] && b[..i + 1] == [b[0]] + b[1..][..i];
          assert Differ(a, b, i + 1);
        }
      }
      if exists i: nat :: Differ(a, b, i) {
        var i: nat :| Differ(a, b, i);
        if i > 0 {
          assert a[0] == a[..i][0] == b[..i][0] == b[0];
          assert a[1..][..i - 1] == a[..i][1..] && b[1..][..i - 1] == b[..i][1..];
          assert Differ(a[1..], b[1..], i - 1);
        }
      }
    } else if b != [] {
      assert Differ(a, b, 0);
    }
  }

  /** Up to `i` the two are alike, and there `a` ends or has the smaller byte. */
  predicate Differ(a: bytes, b: bytes, i: nat)
  {
    i <= |a| && i < |b| && a[..i] == b[..i] && (i == |a| || a[i] < b[i])
  }

  datatype Op = PutOp(item: PendingEvent) | MarkOp(eventID: bytes, at: int, lastErr: bytes) | DropOp(eventID: bytes)

  function Applied(items: Items, op: Op): Items
  {
    match op
    case PutOp(item) => Upserted(items, item)
    case MarkOp(id, at, e) => Marked(items, id, at, e).0
    case DropOp(id) => Removed(items, id)
  }

  function AppliedAll(items: Items, ops: seq<Op>): Items
  {
    if ops == [] then items else Applied(AppliedAll(items, ops[..|ops| - 1]), ops[|ops| - 1])
  }

  predicate Puts(op: Op, k: bytes) { op.PutOp? && TrimSpace(op.item.eventID) == k }

  predicate Drops(op: Op, k: bytes) { op.DropOp? && TrimSpace(op.eventID) == k }

  predicate Marks(op: Op, k: bytes) { op.MarkOp? && TrimSpace(op.eventID) == k }

  /** How many of `ops[from..]` mark the event. */
  function MarksSince(ops: seq<Op>, from: nat, k: bytes): nat
    requires from <= |ops|
    decreases |ops|
  {
    if from == |ops| then 0
    else MarksSince(ops[..|ops| - 1], from, k) + if Marks(ops[|ops| - 1], k) then 1 else 0
  }

  /** Operation `i` is the last that puts the event in, and none after it takes it out. */
  predicate PutBy(ops: seq<Op>, k: bytes, i: nat)
  {
    && i < |ops| && ops[i].PutOp? && Puts(ops[i], k)
    && forall j :: i < j < |ops| ==> !Puts(ops[j], k) && !Drops(ops[j], k)
  }

  lemma PutStays(ops: seq<Op>, op: Op, k: bytes, i: nat)
    requires PutBy(ops, k, i) && !Puts(op, k) && !Drops(op, k)
    ensures PutBy(ops + [op], k, i)
    ensures MarksSince(ops + [op], i + 1, k) == MarksSince(ops, i + 1, k) + if Marks(op, k) then 1 else 0
  {
    var all := ops + [op];
    assert forall j :: 0 <= j < |ops| ==> all[j] == ops[j];
    assert all[..|ops|] == ops;
  }

  lemma NotPutStays(ops: seq<Op>, op: Op, k: bytes)
    requires !Puts(op, k) && (Drops(op, k) || forall j: nat :: !PutBy(ops, k, j))
    ensures forall j: nat :: !PutBy(ops + [op], k, j)
  {
    var all, n := ops + [op], |ops|;
    assert all[n] == op && forall j :: 0 <= j < n ==> all[j] == ops[j];
    forall j: nat ensures !PutBy(all, k, j) {
      if !Drops(op, k) { assert !PutBy(ops, k, j); }
    }
  }

  /** What one operation does to one entry. */
  lemma OneEntry(items: Items, op: Op, k: bytes)
    requires k != []
    ensures var after := Applied(items, op);
            if Puts(op, k) then k in after && after[k] == op.item
            else if Drops(op, k) then k !in after
            else
              && (k in after <==> k in items)
              && (k in items ==>
                    after[k] == items[k].(attempts := items[k].attempts + (if Marks(op, k) then 1 else 0),
                                          lastAttemptAt := after[k].lastAttemptAt, lastError := after[k].lastError))
  {
    hide TrimSpace;
  }

  /** As it was put in, but for its attempts and the latest of them. */
  predicate SameEvent(x: PendingEvent, y: PendingEvent)
  {
    && x.eventID == y.eventID && x.commandID == y.commandID && x.ghostID == y.ghostID
    && x.queuedAt == y.queuedAt && x.ackDeadlineAt == y.ackDeadlineAt
  }

  /** From an empty outbox, over every run: an event is in the box exactly when it was put in and not taken out since, as it
      was put in, with one attempt more for every mark since then. */
  lemma {:induction false} AttemptsCounted(ops: seq<Op>, k: bytes) returns (i: nat)
    requires k != []
    ensures var items := AppliedAll(map[], ops);
            if k in items then
              && PutBy(ops, k, i) && SameEvent(items[k], ops[i].item)
              && items[k].attempts == ops[i].item.attempts + MarksSince(ops, i + 1, k)
            else forall j: nat :: !PutBy(ops, k, j)
  {
    hide Applied, Puts, Drops, Marks;
    i := 0;
    if ops != [] {
      var was, last := ops[..|ops| - 1], ops[|ops| - 1];
      i := AttemptsCounted(was, k);
      assert ops == was + [last];
      OneEntry(AppliedAll(map[], was), last, k);
      if Puts(last, k) {
        i := |ops| - 1;
        PutIsPut(last, k);
      } else if !Drops(last, k) && k in AppliedAll(map[], was) {
        PutStays(was, last, k, i);
      } else {
        NotPutStays(was, last, k);
      }
    }
  }

  lemma PutIsPut(op: Op, k: bytes)
    requires Puts(op, k)
    ensures op.PutOp?
  {
  }

  /** A mark that finds its event sets the time of its latest attempt and the error, trimmed. */
  lemma MarkShows(items: Items, op: Op)
    requires op.MarkOp? && TrimSpace(op.eventID) in items
    ensures var x := Applied(items, op)[TrimSpace(op.eventID)]; x.lastAttemptAt == op.at && x.lastError == TrimSpace(op.lastErr)
    ensures forall k :: k != TrimSpace(op.eventID) ==>
              (k in Applied(items, op) <==> k in items) && (k in items ==> Applied(items, op)[k] == items[k])
  {
  }
}
