/** `get_totals_stat`: how many tasks carry no date at all, and how many of
    those are still open. */
module Totals {
  import opened Entries

  /** A task (it has a status) with no timestamp, range, scheduled or
      deadline date: such tasks are not counted anywhere else. */
  predicate Untimed(e: Entry)
  {
    HasTodo(e) && |e.datelist| == 0 && e.scheduled.None? && e.deadline.None? && |e.rangelist| == 0
  }

  function UntimedTasks(db: seq<Entry>, n: nat): set<nat>
    requires n <= |db|
  {
    set j | 0 <= j < n && Untimed(db[j])
  }

  function OpenUntimedTasks(db: seq<Entry>, n: nat): set<nat>
    requires n <= |db|
  {
    set j | 0 <= j < n && Untimed(db[j]) && !IsIgnored(db[j].todo)
  }

  lemma {:induction false} SubsetCardinality(a: set<nat>, b: set<nat>)
    requires a <= b
    ensures |a| <= |b|
    decreases |b|
  {
    if a != {} {
      var x :| x in a;
      SubsetCardinality(a - {x}, b - {x});
    }
  }

  /** Open untimed tasks are among the untimed ones, so there are never more. */
  lemma OpenWithinTotal(db: seq<Entry>)
    ensures |OpenUntimedTasks(db, |db|)| <= |UntimedTasks(db, |db|)|
  {
    SubsetCardinality(OpenUntimedTasks(db, |db|), UntimedTasks(db, |db|));
  }

  lemma UntimedStep(db: seq<Entry>, i: nat)
    requires i < |db|
    ensures |UntimedTasks(db, i + 1)| == |UntimedTasks(db, i)| + (if Untimed(db[i]) then 1 else 0)
  {
    var u := UntimedTasks(db, i);
    var w := if Untimed(db[i]) then u + {i} else u;
    forall j ensures j in UntimedTasks(db, i + 1) <==> j in w {
    }
    assert UntimedTasks(db, i + 1) == w;
  }

  lemma OpenStep(db: seq<Entry>, i: nat)
    requires i < |db|
    ensures |OpenUntimedTasks(db, i + 1)|
            == |OpenUntimedTasks(db, i)| + (if Untimed(db[i]) && !IsIgnored(db[i].todo) then 1 else 0)
  {
    var o := OpenUntimedTasks(db, i);
    var w := if Untimed(db[i]) && !IsIgnored(db[i].todo) then o + {i} else o;
    forall j ensures j in OpenUntimedTasks(db, i + 1) <==> j in w {
    }
    assert OpenUntimedTasks(db, i + 1) == w;
  }

  /** `get_totals_stat(db)`: returns `(count_open, count_total)`. */
  method GetTotalsStat(db: seq<Entry>) returns (countOpen: nat, countTotal: nat)
    ensures countTotal == |UntimedTasks(db, |db|)|
    ensures countOpen == |OpenUntimedTasks(db, |db|)|
    ensures countOpen <= countTotal
  {
    countOpen, countTotal := 0, 0;
    for i := 0 to |db|
      invariant countTotal == |UntimedTasks(db, i)|
      invariant countOpen == |OpenUntimedTasks(db, i)|
      invariant countOpen <= countTotal
    {
      var entry := db[i];
      UntimedStep(db, i);
      OpenStep(db, i);
      if !HasTodo(entry) {
        // An empty status: the entry is not counted.
        continue;
      }
      if |entry.datelist| > 0 || entry.scheduled.Some? || entry.deadline.Some? || |entry.rangelist| > 0 {
        // Some date of any kind: the entry is not untimed.
        continue;
      }
      countTotal := countTotal + 1;
      if !IsIgnored(entry.todo) {
        countOpen := countOpen + 1;
      }
    }
  }
}
