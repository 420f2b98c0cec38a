/** `sorted(entries, key=lambda entry: entry.sequence)`: a stable sort of log entries. */
module Sorting {
  import opened EventLog

  predicate InOrder(entries: seq<EventLogEntry>) {
    forall i, j :: 0 <= i < j < |entries| ==> entries[i].sequence <= entries[j].sequence
  }

  predicate StrictlyInOrder(entries: seq<EventLogEntry>) {
    forall i, j :: 0 <= i < j < |entries| ==> entries[i].sequence < entries[j].sequence
  }

  /** Puts an entry behind every entry whose sequence is not larger. */
  function Insert(sorted: seq<EventLogEntry>, entry: EventLogEntry): (r: seq<EventLogEntry>)
    ensures multiset(r) == multiset(sorted) + multiset{entry}
    ensures forall e :: e in r ==> e == entry || e in sorted
  {
    var n := |sorted|;
    if n == 0 || sorted[n - 1].sequence <= entry.sequence then sorted + [entry]
    else
      assert sorted == sorted[..n - 1] + [sorted[n - 1]];
      Insert(sorted[..n - 1], entry) + [sorted[n - 1]]
  }

  function SortBySequence(entries: seq<EventLogEntry>): (r: seq<EventLogEntry>)
    ensures multiset(r) == multiset(entries)
  {
    if entries == [] then []
    else
      assert entries == entries[..|entries| - 1] + [entries[|entries| - 1]];
      Insert(SortBySequence(entries[..|entries| - 1]), entries[|entries| - 1])
  }

  lemma AppendInOrder(front: seq<EventLogEntry>, last: EventLogEntry)
    requires InOrder(front) && forall e :: e in front ==> e.sequence <= last.sequence
    ensures InOrder(front + [last])
  {
  }

  lemma {:induction false} InsertInOrder(sorted: seq<EventLogEntry>, entry: EventLogEntry)
    requires InOrder(sorted)
    ensures InOrder(Insert(sorted, entry))
  {
    var n := |sorted|;
    if n == 0 || sorted[n - 1].sequence <= entry.sequence {
      AppendInOrder(sorted, entry);
    } else {
      InsertInOrder(sorted[..n - 1], entry);
      AppendInOrder(Insert(sorted[..n - 1], entry), sorted[n - 1]);
    }
  }

  lemma {:induction false} SortedInOrder(entries: seq<EventLogEntry>)
    ensures InOrder(SortBySequence(entries))
  {
    if entries != [] {
      SortedInOrder(entries[..|entries| - 1]);
      InsertInOrder(SortBySequence(entries[..|entries| - 1]), entries[|entries| - 1]);
    }
  }

  lemma SameHead(a: seq<EventLogEntry>, b: seq<EventLogEntry>)
    requires InOrder(a) && StrictlyInOrder(b) && multiset(a) == multiset(b) && a != []
    ensures b != [] && a[0] == b[0]
  {
    assert a[0] in multiset(b);
    assert b[0] in multiset(a);
  }

  lemma WithoutHead(a: seq<EventLogEntry>)
    requires a != []
    ensures multiset(a[1..]) == multiset(a) - multiset{a[0]}
  {
    assert a == [a[0]] + a[1..];
  }

  /** Entries with different sequences have one order only. */
  lemma {:induction false} OrderIsUnique(a: seq<EventLogEntry>, b: seq<EventLogEntry>)
    requires InOrder(a) && StrictlyInOrder(b) && multiset(a) == multiset(b)
    ensures a == b
  {
    if a == [] {
      assert |multiset(b)| == |b|;
    } else {
      SameHead(a, b);
      WithoutHead(a);
      WithoutHead(b);
      OrderIsUnique(a[1..], b[1..]);
      assert a == [a[0]] + a[1..] && b == [b[0]] + b[1..];
    }
  }

  /** Sorting undoes any shuffling of a log with strictly increasing sequences. */
  lemma SortRestoresLog(shuffled: seq<EventLogEntry>, log: seq<EventLogEntry>)
    requires StrictlyInOrder(log) && multiset(shuffled) == multiset(log)
    ensures SortBySequence(shuffled) == log
  {
    SortedInOrder(shuffled);
    OrderIsUnique(SortBySequence(shuffled), log);
  }
}
