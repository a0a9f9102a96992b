/** `get_incoming`: selects, for every entry and every kind of date, the
    nearest date (via `closest`), routes it to the incoming or the unfinished
    list, and keeps per-status counters for PROJECT ancestors. */
module Classify {
  import opened Util
  import opened Time
  import opened Selector
  import opened Entries

  // ---------------------------------------------------------------------
  // Routing of the selected dates

  /** The two lists `get_incoming` fills. */
  datatype Pass = IncomingPass | UnfinishedPass

  /** Which signed distances (in seconds) a list accepts: the incoming list
      takes events from now up to the horizon, the unfinished list past ones. */
  predicate Admits(pass: Pass, delta: int)
  {
    match pass
    case IncomingPass => 0 <= delta <= Horizon
    case UnfinishedPass => delta < 0
  }

  /** The dates `analyze_dates` is given for one kind. */
  function KindDates(e: Entry, kind: EventKind): seq<DateValue>
  {
    match kind
    case Timestamp => e.datelist
    case Range => Starts(e.rangelist)
    case Scheduled => if e.scheduled.Some? then [e.scheduled.value] else []
    case Deadline => if e.deadline.Some? then [e.deadline.value] else []
  }

  lemma KindDatesSameKind(db: seq<Entry>, i: nat, kind: EventKind)
    requires ValidDb(db) && i < |db| && !IsIgnored(db[i].todo)
    ensures SameKind(KindDates(db[i], kind))
  {
    assert DatesComparable(db, i);
  }

  function Selection(db: seq<Entry>, i: nat, kind: EventKind, now: int): Choice
    requires i < |db|
  {
    Nearest(KindDates(db[i], kind), now)
  }

  function ToTimed(c: Choice, kind: EventKind, i: nat): Timed
    requires c.Chosen?
  {
    (c.converted, Event(c.converted, c.date, c.delta, kind, i))
  }

  /** What one call of `analyze_dates` appends to the list of `pass`. */
  function Route(c: Choice, kind: EventKind, i: nat, pass: Pass): seq<Timed>
  {
    if c.Chosen? && Admits(pass, c.delta) then [ToTimed(c, kind, i)] else []
  }

  /** The four `analyze_dates` calls of entry `i`, given the selections for
      timestamps, ranges, the scheduled date and the deadline. */
  function EntryRoutes(t: Choice, r: Choice, sc: Choice, d: Choice, i: nat, pass: Pass): seq<Timed>
  {
    Route(t, Timestamp, i, pass) + Route(r, Range, i, pass)
    + Route(sc, Scheduled, i, pass) + Route(d, Deadline, i, pass)
  }

  /** What entry `i` appends to the list of `pass`: nothing when its status is
      ignored, else one routed selection per kind, in the source's order. */
  function EntryRouted(db: seq<Entry>, i: nat, now: int, pass: Pass): seq<Timed>
    requires i < |db|
  {
    if IsIgnored(db[i].todo) then []
    else
      EntryRoutes(Selection(db, i, Timestamp, now), Selection(db, i, Range, now),
                  Selection(db, i, Scheduled, now), Selection(db, i, Deadline, now), i, pass)
  }

  /** What each of the first `n` entries appends to the list of `pass`. */
  function Blocks(db: seq<Entry>, n: nat, now: int, pass: Pass): (bs: seq<seq<Timed>>)
    requires n <= |db|
    ensures |bs| == n && forall j :: 0 <= j < n ==> bs[j] == EntryRouted(db, j, now, pass)
  {
    seq(n, j requires 0 <= j < n && n <= |db| => EntryRouted(db, j, now, pass))
  }

  function Flatten(bs: seq<seq<Timed>>): seq<Timed>
    decreases |bs|
  {
    if |bs| == 0 then [] else Flatten(bs[..|bs| - 1]) + bs[|bs| - 1]
  }

  /** The list of `pass` after the first `n` entries. */
  function Routed(db: seq<Entry>, n: nat, now: int, pass: Pass): seq<Timed>
    requires n <= |db|
  {
    Flatten(Blocks(db, n, now, pass))
  }

  lemma FlattenAppend(bs: seq<seq<Timed>>, b: seq<Timed>)
    ensures Flatten(bs + [b]) == Flatten(bs) + b
  {
    assert (bs + [b])[..|bs|] == bs;
  }

  /** A pair is in the flattened list exactly when it is in one block. */
  lemma {:induction false} FlattenMember(bs: seq<seq<Timed>>, x: Timed)
    ensures x in Flatten(bs) <==> exists j :: 0 <= j < |bs| && x in bs[j]
    decreases |bs|
  {
    if |bs| > 0 {
      var m := |bs| - 1;
      var front := bs[..m];
      FlattenMember(front, x);
      assert Flatten(bs) == Flatten(front) + bs[m];
      if x in Flatten(front) {
        var j :| 0 <= j < m && x in front[j];
        assert x in bs[j];
      }
      if exists j :: 0 <= j < |bs| && x in bs[j] {
        var j :| 0 <= j < |bs| && x in bs[j];
        if j < m {
          assert x in front[j];
        }
      }
    }
  }

  /** Entry `i` appends to the list of `pass` exactly what `Blocks` records. */
  lemma RoutedStep(db: seq<Entry>, n: nat, now: int, pass: Pass)
    requires n < |db|
    ensures Routed(db, n + 1, now, pass) == Routed(db, n, now, pass) + EntryRouted(db, n, now, pass)
  {
    var bs := Blocks(db, n + 1, now, pass);
    assert bs == Blocks(db, n, now, pass) + [EntryRouted(db, n, now, pass)];
    FlattenAppend(Blocks(db, n, now, pass), EntryRouted(db, n, now, pass));
  }

  /** A pair in the list of `pass` after `n` entries: its key is its event's
      converted date, it comes from a non-ignored entry among the first `n`,
      the list admits its distance, and it is that entry's selection for
      its kind. */
  predicate SoundPair(db: seq<Entry>, n: nat, now: int, pass: Pass, p: Timed)
    requires n <= |db|
  {
    && p.0 == p.1.converted
    && p.1.entry < n
    && !IsIgnored(db[p.1.entry].todo)
    && Admits(pass, p.1.delta)
    && Selection(db, p.1.entry, p.1.kind, now) == Chosen(p.1.date, p.1.converted, p.1.delta)
  }

  /** The choice among `t`, `r`, `sc`, `d` that belongs to `kind`. */
  function ForKind(t: Choice, r: Choice, sc: Choice, d: Choice, kind: EventKind): Choice
  {
    match kind
    case Timestamp => t
    case Range => r
    case Scheduled => sc
    case Deadline => d
  }

  lemma EntryRoutesSound(t: Choice, r: Choice, sc: Choice, d: Choice, i: nat, pass: Pass, p: Timed)
    requires p in EntryRoutes(t, r, sc, d, i, pass)
    ensures p.0 == p.1.converted && p.1.entry == i && Admits(pass, p.1.delta)
    ensures ForKind(t, r, sc, d, p.1.kind) == Chosen(p.1.date, p.1.converted, p.1.delta)
  {
    var rt, rr, rs, rd := Route(t, Timestamp, i, pass), Route(r, Range, i, pass),
                          Route(sc, Scheduled, i, pass), Route(d, Deadline, i, pass);
    assert EntryRoutes(t, r, sc, d, i, pass) == rt + rr + rs + rd;
    assert p in rt || p in rr || p in rs || p in rd;
  }

  lemma EntryRoutedSound(db: seq<Entry>, i: nat, n: nat, now: int, pass: Pass, p: Timed)
    requires i < n <= |db|
    requires p in EntryRouted(db, i, now, pass)
    ensures SoundPair(db, n, now, pass, p)
  {
    var t, r, sc, d := Selection(db, i, Timestamp, now), Selection(db, i, Range, now),
                       Selection(db, i, Scheduled, now), Selection(db, i, Deadline, now);
    EntryRoutesSound(t, r, sc, d, i, pass, p);
    assert ForKind(t, r, sc, d, p.1.kind) == Selection(db, i, p.1.kind, now);
  }

  lemma RoutedSound(db: seq<Entry>, n: nat, now: int, pass: Pass)
    requires n <= |db|
    ensures forall p :: p in Routed(db, n, now, pass) ==> SoundPair(db, n, now, pass, p)
  {
    var bs := Blocks(db, n, now, pass);
    forall p | p in Flatten(bs) ensures SoundPair(db, n, now, pass, p) {
      FlattenMember(bs, p);
      var j :| 0 <= j < |bs| && p in bs[j];
      EntryRoutedSound(db, j, n, now, pass, p);
    }
  }

  lemma RoutedComplete(db: seq<Entry>, n: nat, now: int, pass: Pass, i: nat, kind: EventKind)
    requires i < n <= |db|
    requires !IsIgnored(db[i].todo)
    requires Selection(db, i, kind, now).Chosen? && Admits(pass, Selection(db, i, kind, now).delta)
    ensures ToTimed(Selection(db, i, kind, now), kind, i) in Routed(db, n, now, pass)
  {
    var bs := Blocks(db, n, now, pass);
    InEntryRouted(db, i, now, pass, kind);
    assert ToTimed(Selection(db, i, kind, now), kind, i) in bs[i];
    FlattenMember(bs, ToTimed(Selection(db, i, kind, now), kind, i));
  }

  lemma InEntryRoutes(t: Choice, r: Choice, sc: Choice, d: Choice, i: nat, pass: Pass, kind: EventKind, c: Choice)
    requires c == ForKind(t, r, sc, d, kind)
    requires c.Chosen? && Admits(pass, c.delta)
    ensures ToTimed(c, kind, i) in EntryRoutes(t, r, sc, d, i, pass)
  {
    var rt, rr, rs, rd := Route(t, Timestamp, i, pass), Route(r, Range, i, pass),
                          Route(sc, Scheduled, i, pass), Route(d, Deadline, i, pass);
    assert EntryRoutes(t, r, sc, d, i, pass) == rt + rr + rs + rd;
    match kind
    case Timestamp => assert rt == [ToTimed(c, kind, i)];
    case Range => assert rr == [ToTimed(c, kind, i)];
    case Scheduled => assert rs == [ToTimed(c, kind, i)];
    case Deadline => assert rd == [ToTimed(c, kind, i)];
  }

  lemma InEntryRouted(db: seq<Entry>, i: nat, now: int, pass: Pass, kind: EventKind)
    requires i < |db|
    requires !IsIgnored(db[i].todo)
    requires Selection(db, i, kind, now).Chosen? && Admits(pass, Selection(db, i, kind, now).delta)
    ensures ToTimed(Selection(db, i, kind, now), kind, i) in EntryRouted(db, i, now, pass)
  {
    InEntryRoutes(Selection(db, i, Timestamp, now), Selection(db, i, Range, now),
                  Selection(db, i, Scheduled, now), Selection(db, i, Deadline, now), i, pass,
                  kind, Selection(db, i, kind, now));
  }

  function Rank(kind: EventKind): nat
  {
    match kind
    case Timestamp => 0
    case Range => 1
    case Scheduled => 2
    case Deadline => 3
  }

  /** `x` belongs before `y`: an earlier entry, or the same entry and a
      kind handled earlier. */
  predicate Before(x: Timed, y: Timed)
  {
    x.1.entry < y.1.entry || (x.1.entry == y.1.entry && Rank(x.1.kind) < Rank(y.1.kind))
  }

  /** Neighbouring pairs are in `Before` order. */
  predicate InEntryOrder(s: seq<Timed>)
  {
    forall k :: 0 < k < |s| ==> Before(s[k - 1], s[k])
  }

  /** Every pair comes from entry `m`, of a kind ranked below `r`. */
  predicate FromEntryBelow(s: seq<Timed>, m: nat, r: nat)
  {
    forall k :: 0 <= k < |s| ==> s[k].1.entry == m && Rank(s[k].1.kind) < r
  }

  /** Every pair comes from an entry before `m`. */
  predicate EntriesBelow(s: seq<Timed>, m: nat)
  {
    forall k :: 0 <= k < |s| ==> s[k].1.entry < m
  }

  /** `Before` is transitive, so neighbour order is order of all pairs. */
  lemma {:induction false} OrderedPairs(s: seq<Timed>)
    requires InEntryOrder(s)
    ensures forall a, b :: 0 <= a < b < |s| ==> Before(s[a], s[b])
    decreases |s|
  {
    if |s| > 1 {
      var t := s[..|s| - 1];
      assert InEntryOrder(t) by {
        forall k | 0 < k < |t| ensures Before(t[k - 1], t[k]) {
          assert t[k - 1] == s[k - 1] && t[k] == s[k];
        }
      }
      OrderedPairs(t);
      forall a, b | 0 <= a < b < |s| ensures Before(s[a], s[b]) {
        if b < |s| - 1 {
          assert s[a] == t[a] && s[b] == t[b];
        } else if a < b - 1 {
          assert Before(t[a], t[b - 1]);
        }
      }
    }
  }

  /** No entry contributes two pairs of the same kind. */
  predicate DistinctKinds(s: seq<Timed>)
  {
    forall a, b :: 0 <= a < b < |s| && s[a].1.entry == s[b].1.entry ==> s[a].1.kind != s[b].1.kind
  }

  lemma AppendRoute(s: seq<Timed>, c: Choice, kind: EventKind, i: nat, pass: Pass)
    requires InEntryOrder(s) && FromEntryBelow(s, i, Rank(kind))
    ensures InEntryOrder(s + Route(c, kind, i, pass))
    ensures FromEntryBelow(s + Route(c, kind, i, pass), i, Rank(kind) + 1)
  {
    var r := s + Route(c, kind, i, pass);
    assert forall k :: 0 <= k < |s| ==> r[k] == s[k];
  }

  lemma EntryRoutesInOrder(t: Choice, r: Choice, sc: Choice, d: Choice, i: nat, pass: Pass)
    ensures InEntryOrder(EntryRoutes(t, r, sc, d, i, pass))
    ensures FromEntryBelow(EntryRoutes(t, r, sc, d, i, pass), i, 4)
  {
    var rt := Route(t, Timestamp, i, pass);
    AppendRoute([], t, Timestamp, i, pass);
    assert [] + rt == rt;
    AppendRoute(rt, r, Range, i, pass);
    var rtr := rt + Route(r, Range, i, pass);
    AppendRoute(rtr, sc, Scheduled, i, pass);
    var rtrs := rtr + Route(sc, Scheduled, i, pass);
    AppendRoute(rtrs, d, Deadline, i, pass);
  }

  lemma EntryRoutedInOrder(db: seq<Entry>, i: nat, now: int, pass: Pass)
    requires i < |db|
    ensures InEntryOrder(EntryRouted(db, i, now, pass))
    ensures FromEntryBelow(EntryRouted(db, i, now, pass), i, 4)
  {
    if !IsIgnored(db[i].todo) {
      EntryRoutesInOrder(Selection(db, i, Timestamp, now), Selection(db, i, Range, now),
                         Selection(db, i, Scheduled, now), Selection(db, i, Deadline, now), i, pass);
    }
  }

  /** Appending the pairs of a later entry keeps the order. */
  lemma InEntryOrderAppend(prev: seq<Timed>, here: seq<Timed>, m: nat)
    requires InEntryOrder(prev) && EntriesBelow(prev, m)
    requires InEntryOrder(here) && FromEntryBelow(here, m, 4)
    ensures InEntryOrder(prev + here) && EntriesBelow(prev + here, m + 1)
  {
    var s := prev + here;
    forall k | 0 < k < |s| ensures Before(s[k - 1], s[k]) {
      if k < |prev| {
        assert s[k - 1] == prev[k - 1] && s[k] == prev[k];
      } else if k == |prev| {
        assert s[k - 1] == prev[k - 1] && s[k] == here[0];
      } else {
        assert s[k - 1] == here[k - 1 - |prev|] && s[k] == here[k - |prev|];
      }
    }
    forall k | 0 <= k < |s| ensures s[k].1.entry < m + 1 {
      if k < |prev| {
        assert s[k] == prev[k];
      } else {
        assert s[k] == here[k - |prev|];
      }
    }
  }

  /** Blocks that each come from their own entry, in entry order, flatten
      to a list in entry order. */
  lemma {:induction false} FlattenOrdered(bs: seq<seq<Timed>>)
    requires forall j :: 0 <= j < |bs| ==> InEntryOrder(bs[j]) && FromEntryBelow(bs[j], j, 4)
    ensures InEntryOrder(Flatten(bs)) && EntriesBelow(Flatten(bs), |bs|)
    decreases |bs|
  {
    if |bs| > 0 {
      var m := |bs| - 1;
      var front := bs[..m];
      assert forall j :: 0 <= j < |front| ==> front[j] == bs[j];
      FlattenOrdered(front);
      InEntryOrderAppend(Flatten(front), bs[m], m);
    }
  }

  lemma RoutedOrdered(db: seq<Entry>, n: nat, now: int, pass: Pass)
    requires n <= |db|
    ensures InEntryOrder(Routed(db, n, now, pass)) && EntriesBelow(Routed(db, n, now, pass), n)
  {
    var bs := Blocks(db, n, now, pass);
    forall j | 0 <= j < |bs| ensures InEntryOrder(bs[j]) && FromEntryBelow(bs[j], j, 4) {
      EntryRoutedInOrder(db, j, now, pass);
    }
    FlattenOrdered(bs);
  }

  /** Each list holds its pairs grouped by entry in document order, ordered
      by kind within an entry, so no entry yields two events of one kind. */
  lemma RoutedInEntryOrder(db: seq<Entry>, n: nat, now: int, pass: Pass)
    requires n <= |db|
    ensures forall a, b :: 0 <= a < b < |Routed(db, n, now, pass)| ==>
              Before(Routed(db, n, now, pass)[a], Routed(db, n, now, pass)[b])
    ensures EntriesBelow(Routed(db, n, now, pass), n)
    ensures DistinctKinds(Routed(db, n, now, pass))
  {
    var s := Routed(db, n, now, pass);
    RoutedOrdered(db, n, now, pass);
    OrderedPairs(s);
    forall a, b | 0 <= a < b < |s| && s[a].1.entry == s[b].1.entry ensures s[a].1.kind != s[b].1.kind {
      assert Before(s[a], s[b]);
    }
  }

  // ---------------------------------------------------------------------
  // Project rollup

  /** Per-status counters of one project; a missing key reads as 0. */
  type Counters = map<string, nat>

  function CountOf(m: Counters, s: string): nat
  {
    if s in m then m[s] else 0
  }

  function Bump(m: Counters, s: string): (r: Counters)
    ensures forall t :: CountOf(r, t) == CountOf(m, t) + (if t == s then 1 else 0)
  {
    m[s := CountOf(m, s) + 1]
  }

  /** `a` is reached from entry `j` by following parent links. */
  predicate IsAncestor(db: seq<Entry>, a: nat, j: nat)
    requires ParentsFirst(db) && j < |db|
    decreases j
  {
    assert ParentBefore(db, j);
    db[j].parent.Some? && (db[j].parent.value == a || IsAncestor(db, a, db[j].parent.value))
  }

  lemma {:induction false} AncestorPrecedes(db: seq<Entry>, a: nat, j: nat)
    requires ParentsFirst(db) && j < |db|
    requires IsAncestor(db, a, j)
    ensures a < j
    decreases j
  {
    assert ParentBefore(db, j);
    var q := db[j].parent.value;
    if q != a {
      AncestorPrecedes(db, a, q);
    }
  }

  /** The ancestor walk of `get_incoming`: from `cur` up to the root, every
      tracked project met gets +1 under status `s`. */
  function Credit(db: seq<Entry>, cur: nat, s: string, projects: map<nat, Counters>): map<nat, Counters>
    requires ParentsFirst(db) && cur < |db|
    decreases cur
  {
    assert ParentBefore(db, cur);
    match db[cur].parent
    case None => projects
    case Some(q) =>
      Credit(db, q, s, if q in projects then projects[q := Bump(projects[q], s)] else projects)
  }

  lemma {:induction false} CreditEffect(db: seq<Entry>, cur: nat, s: string, projects: map<nat, Counters>)
    requires ParentsFirst(db) && cur < |db|
    ensures Credit(db, cur, s, projects).Keys == projects.Keys
    ensures forall p :: p in projects ==>
              Credit(db, cur, s, projects)[p]
              == if IsAncestor(db, p, cur) then Bump(projects[p], s) else projects[p]
    decreases cur
  {
    assert ParentBefore(db, cur);
    if db[cur].parent.Some? {
      var q := db[cur].parent.value;
      var next := if q in projects then projects[q := Bump(projects[q], s)] else projects;
      CreditEffect(db, q, s, next);
      if q in projects {
        if IsAncestor(db, q, q) {
          AncestorPrecedes(db, q, q);
        }
      }
    }
  }

  /** The rollup step of `get_incoming`: the counters before entry `i`'s own
      dates are classified. */
  function Rollup(db: seq<Entry>, i: nat, projects: map<nat, Counters>): map<nat, Counters>
    requires ParentsFirst(db) && i < |db|
  {
    if HasTodo(db[i]) && db[i].parent.Some? && db[i].parent.value in projects
    then Credit(db, i, db[i].todo, projects)
    else projects
  }

  /** A counter changes only when the entry has a status and its immediate
      parent is a tracked project; then each tracked ancestor, and nothing
      else, gets +1 under that status.  The status being ignored plays no part. */
  lemma RollupEffect(db: seq<Entry>, i: nat, projects: map<nat, Counters>)
    requires ParentsFirst(db) && i < |db|
    ensures Rollup(db, i, projects).Keys == projects.Keys
    ensures forall p, s :: p in projects ==>
              CountOf(Rollup(db, i, projects)[p], s)
              == CountOf(projects[p], s)
                 + (if HasTodo(db[i]) && db[i].parent.Some? && db[i].parent.value in projects
                       && IsAncestor(db, p, i) && s == db[i].todo
                    then 1 else 0)
  {
    CreditEffect(db, i, db[i].todo, projects);
  }

  /** The registration step of `get_incoming`: a PROJECT entry is tracked
      from the entry after it on. */
  function Register(db: seq<Entry>, i: nat, projects: map<nat, Counters>): map<nat, Counters>
    requires i < |db|
  {
    if !IsIgnored(db[i].todo) && db[i].todo == ProjectStatus then projects[i := map[]] else projects
  }

  /** The `projects` dictionary after the first `n` entries. */
  function ProjectsUpTo(db: seq<Entry>, n: nat): map<nat, Counters>
    requires ParentsFirst(db) && n <= |db|
    decreases n
  {
    if n == 0 then map[] else Register(db, n - 1, Rollup(db, n - 1, ProjectsUpTo(db, n - 1)))
  }

  lemma {:induction false} ProjectKeys(db: seq<Entry>, n: nat)
    requires ParentsFirst(db) && n <= |db|
    ensures forall p :: p in ProjectsUpTo(db, n) <==> 0 <= p < n && db[p].todo == ProjectStatus
    decreases n
  {
    if n > 0 {
      ProjectKeys(db, n - 1);
      RollupEffect(db, n - 1, ProjectsUpTo(db, n - 1));
      assert !IsIgnored(ProjectStatus);
    }
  }

  /** Entry `j` credits project `p` under status `s`: `j` has status `s`, its
      immediate parent is a PROJECT, and `p` is one of its ancestors. */
  predicate Credits(db: seq<Entry>, j: nat, p: nat, s: string)
    requires ParentsFirst(db) && j < |db|
  {
    assert ParentBefore(db, j);
    && s != "" && db[j].todo == s
    && db[j].parent.Some? && db[db[j].parent.value].todo == ProjectStatus
    && IsAncestor(db, p, j)
  }

  function CreditedBy(db: seq<Entry>, n: nat, p: nat, s: string): set<nat>
    requires ParentsFirst(db) && n <= |db|
  {
    set j | 0 <= j < n && Credits(db, j, p, s)
  }

  lemma CreditedStep(db: seq<Entry>, n: nat, p: nat, s: string)
    requires ParentsFirst(db) && n < |db|
    ensures |CreditedBy(db, n + 1, p, s)| == |CreditedBy(db, n, p, s)| + (if Credits(db, n, p, s) then 1 else 0)
  {
    var c := CreditedBy(db, n, p, s);
    var w := if Credits(db, n, p, s) then c + {n} else c;
    forall j ensures j in CreditedBy(db, n + 1, p, s) <==> j in w {
    }
    assert CreditedBy(db, n + 1, p, s) == w;
  }

  /** Nothing before a project credits it. */
  lemma NoEarlierCredits(db: seq<Entry>, p: nat, s: string)
    requires ParentsFirst(db) && p < |db|
    ensures CreditedBy(db, p + 1, p, s) == {}
  {
    forall j | 0 <= j < p + 1 && Credits(db, j, p, s) ensures false {
      AncestorPrecedes(db, p, j);
    }
  }

  lemma ProjectKey(db: seq<Entry>, n: nat, p: nat)
    requires ParentsFirst(db) && n <= |db|
    ensures p in ProjectsUpTo(db, n) <==> p < n && db[p].todo == ProjectStatus
  {
    ProjectKeys(db, n);
  }

  /** Entry `i` adds one to the counter of tracked project `p` under `s`
      exactly when it credits `p`. */
  lemma CountStep(db: seq<Entry>, i: nat, p: nat, s: string)
    requires ParentsFirst(db) && i < |db| && p in ProjectsUpTo(db, i)
    ensures p in ProjectsUpTo(db, i + 1)
    ensures CountOf(ProjectsUpTo(db, i + 1)[p], s)
            == CountOf(ProjectsUpTo(db, i)[p], s) + (if Credits(db, i, p, s) then 1 else 0)
  {
    var prev := ProjectsUpTo(db, i);
    ProjectKey(db, i, p);
    assert ProjectsUpTo(db, i + 1) == Register(db, i, Rollup(db, i, prev));
    assert ParentBefore(db, i);
    if HasTodo(db[i]) && db[i].parent.Some? {
      ProjectKey(db, i, db[i].parent.value);
    }
    RollupEffect(db, i, prev);
  }

  /** Each counter of a tracked project counts exactly the later entries that
      credit it, ignored ones included. */
  lemma {:induction false} ProjectCounts(db: seq<Entry>, n: nat, p: nat, s: string)
    requires ParentsFirst(db) && n <= |db|
    requires p in ProjectsUpTo(db, n)
    ensures CountOf(ProjectsUpTo(db, n)[p], s) == |CreditedBy(db, n, p, s)|
    decreases n
  {
    ProjectKey(db, n, p);
    var i := n - 1;
    if p == i {
      assert ProjectsUpTo(db, n) == Register(db, i, Rollup(db, i, ProjectsUpTo(db, i)));
      assert !IsIgnored(ProjectStatus);
      NoEarlierCredits(db, p, s);
    } else {
      ProjectKey(db, i, p);
      ProjectCounts(db, i, p, s);
      CountStep(db, i, p, s);
      CreditedStep(db, i, p, s);
    }
  }

  // ---------------------------------------------------------------------
  // The imperative classifier

  /** The `analyze_dates` closure: select among `dates` and append the result
      to the list its distance belongs to, if any. */
  method AnalyzeDates(dates: seq<DateValue>, kind: EventKind, i: nat, now: int,
                      incoming: seq<Timed>, unfinished: seq<Timed>)
    returns (newIncoming: seq<Timed>, newUnfinished: seq<Timed>)
    requires SameKind(dates)
    ensures newIncoming == incoming + Route(Nearest(dates, now), kind, i, IncomingPass)
    ensures newUnfinished == unfinished + Route(Nearest(dates, now), kind, i, UnfinishedPass)
  {
    var data := Closest(dates, now);
    newIncoming, newUnfinished := incoming, unfinished;
    if data.NoDates? {
      // Nothing selected: neither list grows.
      return;
    } else if data.delta < 0 {
      // Negative distance: the unfinished list.
      newUnfinished := unfinished + [(data.converted, Event(data.converted, data.date, data.delta, kind, i))];
    } else if data.delta <= Horizon {
      // Within the horizon: the incoming list.
      newIncoming := incoming + [(data.converted, Event(data.converted, data.date, data.delta, kind, i))];
    }
  }

  /** The rollup step of `get_incoming`: credit the ancestors of entry `i`. */
  method RollupEntry(db: seq<Entry>, i: nat, projects: map<nat, Counters>)
    returns (newProjects: map<nat, Counters>)
    requires ParentsFirst(db) && i < |db|
    ensures newProjects == Rollup(db, i, projects)
  {
    newProjects := projects;
    var entry := db[i];
    if HasTodo(entry) && entry.parent.Some? && entry.parent.value in projects {
      // Walk the parent links up to the root, crediting every tracked project.
      var cur: nat := i;
      while db[cur].parent.Some?
        invariant cur <= i
        invariant Credit(db, cur, entry.todo, newProjects) == Credit(db, i, entry.todo, projects)
        decreases cur
      {
        assert ParentBefore(db, cur);
        cur := db[cur].parent.value;
        if cur in newProjects {
          newProjects := newProjects[cur := Bump(newProjects[cur], entry.todo)];
        }
      }
    }
  }

  /** The classification step of `get_incoming`, one kind at a time: `analyze_dates` on the entry's
      dates of that kind; the range, scheduled and deadline calls are skipped
      when the entry has none, which appends nothing either way. */
  method AnalyzeKind(db: seq<Entry>, i: nat, kind: EventKind, now: int,
                     incoming: seq<Timed>, unfinished: seq<Timed>)
    returns (newIncoming: seq<Timed>, newUnfinished: seq<Timed>)
    requires ValidDb(db) && i < |db| && !IsIgnored(db[i].todo)
    ensures newIncoming == incoming + Route(Selection(db, i, kind, now), kind, i, IncomingPass)
    ensures newUnfinished == unfinished + Route(Selection(db, i, kind, now), kind, i, UnfinishedPass)
  {
    var entry := db[i];
    KindDatesSameKind(db, i, kind);
    newIncoming, newUnfinished := incoming, unfinished;
    match kind {
      case Timestamp =>
        newIncoming, newUnfinished := AnalyzeDates(entry.datelist, Timestamp, i, now, incoming, unfinished);
      case Range =>
        if |entry.rangelist| > 0 {
          newIncoming, newUnfinished := AnalyzeDates(Starts(entry.rangelist), Range, i, now, incoming, unfinished);
        } else {
          assert KindDates(entry, Range) == [];
        }
      case Scheduled =>
        if entry.scheduled.Some? {
          newIncoming, newUnfinished := AnalyzeDates([entry.scheduled.value], Scheduled, i, now, incoming, unfinished);
        }
      case Deadline =>
        if entry.deadline.Some? {
          newIncoming, newUnfinished := AnalyzeDates([entry.deadline.value], Deadline, i, now, incoming, unfinished);
        }
    }
  }

  lemma Assoc4(a: seq<Timed>, b: seq<Timed>, c: seq<Timed>, d: seq<Timed>, e: seq<Timed>)
    ensures a + b + c + d + e == a + (b + c + d + e)
  {
  }

  /** The classification step of `get_incoming`: one `analyze_dates` call
      per kind of date. */
  method AnalyzeEntry(db: seq<Entry>, i: nat, now: int, incoming: seq<Timed>, unfinished: seq<Timed>)
    returns (newIncoming: seq<Timed>, newUnfinished: seq<Timed>)
    requires ValidDb(db) && i < |db|
    requires !IsIgnored(db[i].todo)
    ensures newIncoming == incoming + EntryRouted(db, i, now, IncomingPass)
    ensures newUnfinished == unfinished + EntryRouted(db, i, now, UnfinishedPass)
  {
    newIncoming, newUnfinished := AnalyzeKind(db, i, Timestamp, now, incoming, unfinished);
    newIncoming, newUnfinished := AnalyzeKind(db, i, Range, now, newIncoming, newUnfinished);
    newIncoming, newUnfinished := AnalyzeKind(db, i, Scheduled, now, newIncoming, newUnfinished);
    newIncoming, newUnfinished := AnalyzeKind(db, i, Deadline, now, newIncoming, newUnfinished);
    Assoc4(incoming, Route(Selection(db, i, Timestamp, now), Timestamp, i, IncomingPass),
           Route(Selection(db, i, Range, now), Range, i, IncomingPass),
           Route(Selection(db, i, Scheduled, now), Scheduled, i, IncomingPass),
           Route(Selection(db, i, Deadline, now), Deadline, i, IncomingPass));
    Assoc4(unfinished, Route(Selection(db, i, Timestamp, now), Timestamp, i, UnfinishedPass),
           Route(Selection(db, i, Range, now), Range, i, UnfinishedPass),
           Route(Selection(db, i, Scheduled, now), Scheduled, i, UnfinishedPass),
           Route(Selection(db, i, Deadline, now), Deadline, i, UnfinishedPass));
  }

  /** `get_incoming(db)` with "now" fixed to `now`. */
  method GetIncoming(db: seq<Entry>, now: int)
    returns (incoming: seq<Timed>, unfinished: seq<Timed>, projects: map<nat, Counters>)
    requires ValidDb(db)
    ensures incoming == Routed(db, |db|, now, IncomingPass)
    ensures unfinished == Routed(db, |db|, now, UnfinishedPass)
    ensures projects == ProjectsUpTo(db, |db|)
  {
    incoming, unfinished, projects := [], [], map[];
    for i := 0 to |db|
      invariant incoming == Routed(db, i, now, IncomingPass)
      invariant unfinished == Routed(db, i, now, UnfinishedPass)
      invariant projects == ProjectsUpTo(db, i)
    {
      RoutedStep(db, i, now, IncomingPass);
      RoutedStep(db, i, now, UnfinishedPass);
      projects := RollupEntry(db, i, projects);
      // An ignored status: rolled up, but its dates are not examined.
      if IsIgnored(db[i].todo) {
        continue;
      }
      incoming, unfinished := AnalyzeEntry(db, i, now, incoming, unfinished);
      if db[i].todo == ProjectStatus {
        projects := projects[i := map[]];
      }
    }
  }
}
