/** The rotation extender (`extend_rotation.py`): who served last, the
    least-recently-served-first queue, the generator of new rotations, and how
    many rotations are needed to reach a date. */
module ExtendRotation {
  import opened Wrappers
  import opened Rotations

  // ---------------------------------------------------------------------
  // Sequences without repeats, in first-occurrence order.

  predicate Distinct(s: seq<string>)
  {
    forall i, j | 0 <= i < j < |s| :: s[i] != s[j]
  }

  /** The names of `s` in the order they first occur: the key order of a
      Python dict filled from `s`. */
  function Dedup(s: seq<string>): seq<string>
  {
    if |s| == 0 then []
    else
      var d := Dedup(s[..|s| - 1]);
      if s[|s| - 1] in d then d else d + [s[|s| - 1]]
  }

  /** Every name of `s` is kept, exactly once. */
  lemma {:induction false} DedupMeaning(s: seq<string>)
    ensures Distinct(Dedup(s))
    ensures forall x :: x in Dedup(s) <==> x in s
  {
    if |s| > 0 {
      var init := s[..|s| - 1];
      DedupMeaning(init);
      assert s == init + [s[|s| - 1]];
    }
  }

  lemma DedupAppend(s: seq<string>, x: string)
    ensures Dedup(s + [x]) == if x in Dedup(s) then Dedup(s) else Dedup(s) + [x]
  {
    assert (s + [x])[..|s|] == s;
  }

  /** Position of a name in a sequence that holds it (its first occurrence). */
  function IndexOf(s: seq<string>, x: string): (i: nat)
    requires x in s
    ensures i < |s| && s[i] == x && x !in s[..i]
  {
    if s[0] == x then 0
    else
      assert x in s[1..];
      var i := IndexOf(s[1..], x);
      assert s[..i + 1] == [s[0]] + s[1..][..i];
      1 + i
  }

  // ---------------------------------------------------------------------
  // find_most_recent_service_times

  /** Everyone listed on `rotations`, oldest rotation first, repeats kept. */
  function AllServed(rotations: seq<Rotation>): seq<string>
  {
    if |rotations| == 0 then []
    else AllServed(rotations[..|rotations| - 1]) + rotations[|rotations| - 1].members
  }

  /** The start of the newest rotation that lists `name`, if any does. */
  function LastServed(rotations: seq<Rotation>, name: string): Option<int>
  {
    if |rotations| == 0 then None
    else if name in rotations[|rotations| - 1].members then Some(rotations[|rotations| - 1].start)
    else LastServed(rotations[..|rotations| - 1], name)
  }

  /** Someone has served exactly when they are listed on some rotation. */
  lemma {:induction false} LastServedIffListed(rotations: seq<Rotation>, name: string)
    ensures LastServed(rotations, name).Some? <==> name in AllServed(rotations)
    ensures LastServed(rotations, name).Some? ==>
      exists i | 0 <= i < |rotations| :: name in rotations[i].members && rotations[i].start == LastServed(rotations, name).value
  {
    if |rotations| > 0 {
      var n := |rotations| - 1;
      LastServedIffListed(rotations[..n], name);
      if name !in rotations[n].members && LastServed(rotations, name).Some? {
        var i :| 0 <= i < n && name in rotations[..n][i].members && rotations[..n][i].start == LastServed(rotations, name).value;
        assert rotations[i] == rotations[..n][i];
      }
    }
  }

  /** Being listed on rotation `i` and on no later one makes `i`'s start the
      time found: the newest listing wins. */
  lemma {:induction false} LastServedIsNewest(rotations: seq<Rotation>, name: string, i: nat)
    requires i < |rotations| && name in rotations[i].members
    requires forall j | i < j < |rotations| :: name !in rotations[j].members
    ensures LastServed(rotations, name) == Some(rotations[i].start)
  {
    var n := |rotations| - 1;
    if i < n {
      assert rotations[..n][i] == rotations[i];
      forall j | i < j < n
        ensures name !in rotations[..n][j].members
      {
        assert rotations[..n][j] == rotations[j];
      }
      LastServedIsNewest(rotations[..n], name, i);
    }
  }

  /** The service time recorded for a name: its newest rotation's start, or
      `MinTime` for someone never scheduled. */
  function ServiceTime(rotations: seq<Rotation>, name: string): int
  {
    match LastServed(rotations, name)
    case Some(t) => t
    case None => MinTime
  }

  /** The dictionary `find_most_recent_service_times` returns: its keys in
      insertion order and its contents. */
  datatype ServiceTimes = ServiceTimes(order: seq<string>, last: map<string, int>)

  /** The insertion order of that dictionary: the pool, then everyone named
      on a prior rotation, each at their first appearance. */
  function ServiceOrder(rotations: seq<Rotation>, members: seq<string>): seq<string>
  {
    Dedup(members + AllServed(rotations))
  }

  lemma AllServedAppend(rotations: seq<Rotation>, r: nat)
    requires r < |rotations|
    ensures AllServed(rotations[..r + 1]) == AllServed(rotations[..r]) + rotations[r].members
    ensures forall members :: (Replay(members, rotations[..r + 1]) ==
      Assign(Replay(members, rotations[..r]), rotations[r].members, rotations[r].start))
  {
    assert rotations[..r + 1][..r] == rotations[..r];
  }

  /** `last[name] = time` for each name in turn. */
  function Assign(last: map<string, int>, names: seq<string>, time: int): map<string, int>
  {
    if |names| == 0 then last
    else Assign(last, names[..|names| - 1], time)[names[|names| - 1] := time]
  }

  lemma AssignAppend(last: map<string, int>, names: seq<string>, x: string, time: int)
    ensures Assign(last, names + [x], time) == Assign(last, names, time)[x := time]
  {
    assert (names + [x])[..|names|] == names;
  }

  lemma {:induction false} AssignMeaning(last: map<string, int>, names: seq<string>, time: int)
    ensures forall x :: x in Assign(last, names, time) <==> x in last || x in names
    ensures forall x | x in Assign(last, names, time) ::
      Assign(last, names, time)[x] == if x in names then time else last[x]
  {
    if |names| > 0 {
      var init := names[..|names| - 1];
      AssignMeaning(last, init, time);
      assert names == init + [names[|names| - 1]];
    }
  }

  /** The dictionary as the two loops of `find_most_recent_service_times`
      leave it after the pool and the given rotations. */
  function Replay(members: seq<string>, rotations: seq<Rotation>): map<string, int>
  {
    if |rotations| == 0 then Assign(map[], members, MinTime)
    else
      var n := |rotations| - 1;
      Assign(Replay(members, rotations[..n]), rotations[n].members, rotations[n].start)
  }

  /** Overwriting oldest to newest leaves each person's newest service time. */
  lemma {:induction false} ReplayMeaning(members: seq<string>, rotations: seq<Rotation>)
    ensures forall x :: x in Replay(members, rotations) <==> x in members || LastServed(rotations, x).Some?
    ensures forall x | x in Replay(members, rotations) :: Replay(members, rotations)[x] == ServiceTime(rotations, x)
  {
    if |rotations| == 0 {
      AssignMeaning(map[], members, MinTime);
    } else {
      var n := |rotations| - 1;
      ReplayMeaning(members, rotations[..n]);
      AssignMeaning(Replay(members, rotations[..n]), rotations[n].members, rotations[n].start);
    }
  }

  /** The dictionary has a key for everyone in the pool or on a rotation. */
  lemma {:induction false} ReplayKeys(members: seq<string>, rotations: seq<Rotation>, x: string)
    ensures x in Replay(members, rotations) <==> x in members + AllServed(rotations)
  {
    if |rotations| == 0 {
      AssignMeaning(map[], members, MinTime);
    } else {
      var n := |rotations| - 1;
      ReplayKeys(members, rotations[..n], x);
      AssignMeaning(Replay(members, rotations[..n]), rotations[n].members, rotations[n].start);
    }
  }

  /** The insertion order and the dictionary hold the same names. */
  lemma KeysAgree(seen: seq<string>, last: map<string, int>, names: seq<string>, time: int, x: string)
    requires forall y :: y in last <==> y in seen
    ensures x in Dedup(seen + names) <==> x in Assign(last, names, time)
  {
    DedupMeaning(seen + names);
    AssignMeaning(last, names, time);
  }

  /** One pass of `for member in names: last[member] = time` over the
      dictionary built from `seen`: new keys go to the end of the insertion
      order, existing keys keep their place and take the new time. */
  method Record(ghost seen: seq<string>, order: seq<string>, last: map<string, int>,
                names: seq<string>, time: int)
    returns (order': seq<string>, last': map<string, int>)
    requires order == Dedup(seen)
    requires forall x :: x in last <==> x in seen
    ensures order' == Dedup(seen + names)
    ensures last' == Assign(last, names, time)
  {
    order', last' := order, last;
    assert seen + names[..0] == seen;
    for m := 0 to |names|
      invariant order' == Dedup(seen + names[..m])
      invariant last' == Assign(last, names[..m], time)
    {
      var member := names[m];
      assert names[..m + 1] == names[..m] + [member];
      assert seen + names[..m + 1] == (seen + names[..m]) + [member];
      DedupAppend(seen + names[..m], member);
      AssignAppend(last, names[..m], member, time);
      KeysAgree(seen, last, names[..m], time, member);
      if member !in last' {
        order' := order' + [member];
      }
      last' := last'[member := time];
    }
    assert names[..|names|] == names;
  }

  method FindMostRecentServiceTimes(rotations: seq<Rotation>, members: seq<string>)
    returns (t: ServiceTimes)
    ensures t.order == ServiceOrder(rotations, members)
    ensures forall x :: x in t.order <==> x in t.last
    ensures forall x :: x in t.last <==> x in members || LastServed(rotations, x).Some?
    ensures forall x | x in t.last :: t.last[x] == ServiceTime(rotations, x)
  {
    var order, last := Record([], [], map[], members, MinTime);
    assert [] + members == members + AllServed(rotations[..0]);
    for r := 0 to |rotations|
      invariant order == Dedup(members + AllServed(rotations[..r]))
      invariant last == Replay(members, rotations[..r])
    {
      ghost var seen := members + AllServed(rotations[..r]);
      forall x
        ensures x in last <==> x in seen
      {
        ReplayKeys(members, rotations[..r], x);
      }
      order, last := Record(seen, order, last, rotations[r].members, rotations[r].start);
      AllServedAppend(rotations, r);
      assert seen + rotations[r].members == members + AllServed(rotations[..r + 1]);
    }
    assert rotations[..|rotations|] == rotations;
    ReplayMeaning(members, rotations);
    DedupMeaning(members + AllServed(rotations));
    forall x
      ensures x in order <==> x in last
    {
      ReplayKeys(members, rotations, x);
    }
    t := ServiceTimes(order, last);
  }

  // ---------------------------------------------------------------------
  // sorted(last_service_times.items(), key=time): a stable sort.

  /** `x` goes before the first name that served no earlier than it, so
      among equal times the names already placed keep their order after it. */
  function InsertByTime(x: string, sorted: seq<string>, last: map<string, int>): (r: seq<string>)
    requires x in last && forall y | y in sorted :: y in last
    ensures multiset(r) == multiset(sorted) + multiset{x}
    ensures forall y | y in r :: y == x || y in sorted
  {
    if |sorted| == 0 then [x]
    else if last[x] <= last[sorted[0]] then [x] + sorted
    else
      assert sorted == [sorted[0]] + sorted[1..];
      [sorted[0]] + InsertByTime(x, sorted[1..], last)
  }

  /** Python's stable `sorted` by service time, as an insertion sort. */
  function SortByServiceTime(order: seq<string>, last: map<string, int>): (r: seq<string>)
    requires forall y | y in order :: y in last
    ensures multiset(r) == multiset(order)
    ensures forall y | y in r :: y in order
  {
    if |order| == 0 then []
    else
      assert order == [order[0]] + order[1..];
      InsertByTime(order[0], SortByServiceTime(order[1..], last), last)
  }

  /** `a` has waited longer than `b`: it served earlier, or at the same time
      and comes first in `order`. */
  predicate Before(a: string, b: string, order: seq<string>, last: map<string, int>)
    requires a in last && b in last && a in order && b in order
  {
    last[a] < last[b] || (last[a] == last[b] && IndexOf(order, a) < IndexOf(order, b))
  }

  /** `q` is ordered by service time, oldest first, and among equal service
      times by position in `order`. */
  predicate LeastRecentFirst(q: seq<string>, order: seq<string>, last: map<string, int>)
    requires forall y | y in q :: y in last && y in order
  {
    forall i, j | 0 <= i < j < |q| :: Before(q[i], q[j], order, last)
  }

  lemma {:induction false} InsertKeepsOrder(x: string, sorted: seq<string>, order: seq<string>, last: map<string, int>)
    requires x in last && x in order
    requires forall y | y in sorted :: y in last && y in order && IndexOf(order, x) < IndexOf(order, y)
    requires LeastRecentFirst(sorted, order, last)
    ensures LeastRecentFirst(InsertByTime(x, sorted, last), order, last)
  {
    if |sorted| > 0 && last[x] <= last[sorted[0]] {
      PrependKeepsOrder(x, sorted, order, last);
    } else if |sorted| > 0 {
      InsertKeepsOrder(x, sorted[1..], order, last);
      PrependKeepsOrder(sorted[0], InsertByTime(x, sorted[1..], last), order, last);
    }
  }

  /** Putting a name in front keeps the order when it goes before the first
      name, and goes before everyone when it ties with them. */
  lemma PrependKeepsOrder(x: string, q: seq<string>, order: seq<string>, last: map<string, int>)
    requires x in last && x in order
    requires forall y | y in q :: y in last && y in order
    requires LeastRecentFirst(q, order, last)
    requires forall y | y in q :: last[x] < last[y] || (last[x] == last[y] && IndexOf(order, x) < IndexOf(order, y))
    ensures LeastRecentFirst([x] + q, order, last)
  {
    var r := [x] + q;
    forall i, j | 0 <= i < j < |r|
      ensures Before(r[i], r[j], order, last)
    {
      if i == 0 {
        assert r[j] == q[j - 1];
      } else {
        assert r[i] == q[i - 1] && r[j] == q[j - 1];
      }
    }
  }

  /** Shifting a name's index by one when the first name is dropped. */
  lemma IndexOfTail(order: seq<string>, y: string)
    requires Distinct(order) && |order| > 0 && y in order[1..]
    ensures IndexOf(order, y) == IndexOf(order[1..], y) + 1
  {
  }

  /** The queue the extender starts from is the candidates, each once,
      oldest service time first, ties in dictionary insertion order. */
  lemma {:induction false} SortByServiceTimeIsStable(order: seq<string>, last: map<string, int>)
    requires Distinct(order) && forall y | y in order :: y in last
    ensures multiset(SortByServiceTime(order, last)) == multiset(order)
    ensures LeastRecentFirst(SortByServiceTime(order, last), order, last)
  {
    if |order| > 0 {
      var tail := order[1..];
      assert Distinct(tail);
      var t := SortByServiceTime(tail, last);
      SortByServiceTimeIsStable(tail, last);
      forall y | y in t
        ensures y in tail && IndexOf(order, y) == IndexOf(tail, y) + 1
      {
        assert y in multiset(t);
        IndexOfTail(order, y);
      }
      assert LeastRecentFirst(t, order, last);
      InsertKeepsOrder(order[0], t, order, last);
    }
  }

  /** When nobody has served yet every time is the same, and the queue is the
      candidate order unchanged. */
  lemma {:induction false} SortKeepsOrderOnTies(order: seq<string>, last: map<string, int>, t: int)
    requires forall y | y in order :: y in last && last[y] == t
    ensures SortByServiceTime(order, last) == order
  {
    if |order| > 0 {
      SortKeepsOrderOnTies(order[1..], last, t);
    }
  }

  /** The service-time dictionary as a value: what the method above returns. */
  function ServiceTimeMap(rotations: seq<Rotation>, members: seq<string>): map<string, int>
  {
    map x | x in ServiceOrder(rotations, members) :: ServiceTime(rotations, x)
  }

  /** A dictionary with the right keys and values is the service-time map. */
  lemma ServiceTimesMatch(rotations: seq<Rotation>, members: seq<string>, order: seq<string>, last: map<string, int>)
    requires order == ServiceOrder(rotations, members)
    requires forall x :: x in order <==> x in last
    requires forall x | x in last :: last[x] == ServiceTime(rotations, x)
    ensures last == ServiceTimeMap(rotations, members)
  {
  }

  /** The queue `generate_additional_rotations` starts from. */
  function InitialQueue(rotations: seq<Rotation>, members: seq<string>): (q: seq<string>)
    ensures multiset(q) == multiset(ServiceOrder(rotations, members))
  {
    SortByServiceTime(ServiceOrder(rotations, members), ServiceTimeMap(rotations, members))
  }

  /** With no prior rotations the first rotations take the pool in list order. */
  lemma InitialQueueWithoutPriors(members: seq<string>)
    ensures InitialQueue([], members) == Dedup(members)
  {
    assert members + AllServed([]) == members;
    SortKeepsOrderOnTies(Dedup(members), ServiceTimeMap([], members), MinTime);
  }

  /** The initial queue holds every candidate once, least recently served first. */
  lemma InitialQueueIsFair(rotations: seq<Rotation>, members: seq<string>)
    ensures var q := InitialQueue(rotations, members);
      && Distinct(q)
      && (forall x :: x in q <==> x in members || LastServed(rotations, x).Some?)
      && (forall i, j | 0 <= i < j < |q| :: ServiceTime(rotations, q[i]) <= ServiceTime(rotations, q[j]))
  {
    var order := ServiceOrder(rotations, members);
    var last := ServiceTimeMap(rotations, members);
    var q := InitialQueue(rotations, members);
    DedupMeaning(members + AllServed(rotations));
    SortByServiceTimeIsStable(order, last);
    forall i, j | 0 <= i < j < |q|
      ensures q[i] != q[j] && ServiceTime(rotations, q[i]) <= ServiceTime(rotations, q[j])
    {
      assert Before(q[i], q[j], order, last);
    }
    forall x
      ensures x in q <==> x in members || LastServed(rotations, x).Some?
    {
      assert x in q <==> x in multiset(q);
      assert x in order <==> x in multiset(order);
      LastServedIffListed(rotations, x);
    }
  }

  // ---------------------------------------------------------------------
  // generate_additional_rotations

  /** One turn of the queue: the first `k` names move to the back. */
  function Step(q: seq<string>, k: nat): (r: seq<string>)
    requires k <= |q|
    ensures |r| == |q|
  {
    q[k..] + q[..k]
  }

  /** The queue after `n` rotations have been produced. */
  function QueueAfter(q: seq<string>, k: nat, n: nat): (r: seq<string>)
    requires k <= |q|
    ensures |r| == |q|
  {
    if n == 0 then q else Step(QueueAfter(q, k, n - 1), k)
  }

  /** The first `n` rotations the generator yields from queue `q`, starting
      at `first` and `length` seconds apart. */
  function Generated(q: seq<string>, k: nat, first: int, length: int, n: nat): (rs: seq<Rotation>)
    requires k <= |q|
    ensures |rs| == n
  {
    if n == 0 then []
    else Generated(q, k, first, length, n - 1) + [Rotation(first + (n - 1) * length, QueueAfter(q, k, n - 1)[..k])]
  }

  lemma MulMono(a: nat, b: nat, k: nat)
    requires a <= b
    ensures a * k <= b * k
  {
    assert b * k == a * k + (b - a) * k;
  }

  /** One turn keeps the same names, each as often as before. */
  lemma StepPerm(p: seq<string>, k: nat)
    requires k <= |p|
    ensures multiset(Step(p, k)) == multiset(p)
  {
    calc {
      multiset(Step(p, k));
      multiset(p[k..]) + multiset(p[..k]);
      { assert p == p[..k] + p[k..]; }
      multiset(p);
    }
  }

  /** Turning the queue keeps the same candidates, each as often as before. */
  lemma {:induction false} QueueAfterPerm(q: seq<string>, k: nat, n: nat)
    requires k <= |q|
    ensures multiset(QueueAfter(q, k, n)) == multiset(q)
  {
    if n > 0 {
      var p := QueueAfter(q, k, n - 1);
      assert QueueAfter(q, k, n) == Step(p, k);
      QueueAfterPerm(q, k, n - 1);
      StepPerm(p, k);
    }
  }

  /** Turning a queue of distinct names keeps them distinct. */
  lemma {:induction false} QueueAfterDistinct(q: seq<string>, k: nat, n: nat)
    requires k <= |q| && Distinct(q)
    ensures Distinct(QueueAfter(q, k, n))
  {
    if n > 0 {
      QueueAfterDistinct(q, k, n - 1);
      var p := QueueAfter(q, k, n - 1);
      var r := Step(p, k);
      forall i, j | 0 <= i < j < |r|
        ensures r[i] != r[j]
      {
        var pi := if i < |p| - k then i + k else i - (|p| - k);
        var pj := if j < |p| - k then j + k else j - (|p| - k);
        assert r[i] == p[pi] && r[j] == p[pj] && pi != pj;
      }
    }
  }

  /** Turning `a` times and then `b` times is turning `a + b` times. */
  lemma {:induction false} QueueAfterAdd(q: seq<string>, k: nat, a: nat, b: nat)
    requires k <= |q|
    ensures QueueAfter(QueueAfter(q, k, a), k, b) == QueueAfter(q, k, a + b)
  {
    if b > 0 {
      QueueAfterAdd(q, k, a, b - 1);
    }
  }

  /** While the names taken so far have not wrapped round, `d` turns just
      move the first `d * k` names to the back. */
  lemma {:induction false} QueueAfterNoWrap(q: seq<string>, k: nat, d: nat)
    requires k <= |q| && d * k <= |q|
    ensures QueueAfter(q, k, d) == q[d * k..] + q[..d * k]
  {
    if d > 0 {
      var c := (d - 1) * k;
      assert c + k == d * k;
      QueueAfterNoWrap(q, k, d - 1);
      var p := QueueAfter(q, k, d - 1);
      assert p == q[c..] + q[..c];
      assert p[..k] == q[c..c + k];
      assert p[k..] == q[c + k..] + q[..c];
      assert q[..c] + q[c..c + k] == q[..c + k];
    }
  }

  /** The `i`-th generated rotation, described directly. */
  lemma {:induction false} GeneratedAt(q: seq<string>, k: nat, first: int, length: int, n: nat, i: nat)
    requires k <= |q| && i < n
    ensures Generated(q, k, first, length, n)[i] == Rotation(first + i * length, QueueAfter(q, k, i)[..k])
  {
    if i < n - 1 {
      GeneratedAt(q, k, first, length, n - 1, i);
    }
  }

  /** Nobody is on two rotations among any `w` consecutive ones. */
  predicate NoRepeatsWithin(rs: seq<Rotation>, w: nat)
  {
    && (forall i | 0 <= i < |rs| :: Distinct(rs[i].members))
    && (forall i, j, x | 0 <= i < j < |rs| && j - i < w && x in rs[i].members :: x !in rs[j].members)
  }

  /** The people on rotation `i` and on rotation `i + d` of the same run are
      different when `d` is at least one and `d + 1` rotations fit in the queue. */
  lemma WindowDisjoint(q: seq<string>, k: nat, i: nat, d: nat)
    requires Distinct(q) && k <= |q| && 1 <= d && (d + 1) * k <= |q|
    ensures forall x | x in QueueAfter(q, k, i)[..k] :: x !in QueueAfter(q, k, i + d)[..k]
  {
    var p := QueueAfter(q, k, i);
    QueueAfterDistinct(q, k, i);
    QueueAfterAdd(q, k, i, d);
    assert d * k + k <= |p|;
    QueueAfterNoWrap(p, k, d);
    MulMono(1, d, k);
    assert QueueAfter(q, k, i + d)[..k] == p[d * k..d * k + k];
    forall x | x in p[..k]
      ensures x !in p[d * k..d * k + k]
    {
      var a :| 0 <= a < k && p[a] == x;
    }
  }

  /** Least-recent-first rotation: when `w` rotations' worth of people fit in
      the queue, no one serves twice within `w` consecutive rotations. */
  lemma GeneratedIsFair(q: seq<string>, k: nat, first: int, length: int, n: nat, w: nat)
    requires Distinct(q) && k <= |q| && k * w <= |q|
    ensures NoRepeatsWithin(Generated(q, k, first, length, n), w)
  {
    var rs := Generated(q, k, first, length, n);
    forall i | 0 <= i < n
      ensures rs[i].members == QueueAfter(q, k, i)[..k]
    {
      GeneratedAt(q, k, first, length, n, i);
    }
    forall i | 0 <= i < n
      ensures Distinct(rs[i].members)
    {
      QueueAfterDistinct(q, k, i);
    }
    forall i, j | 0 <= i < j < n && j - i < w
      ensures forall x | x in rs[i].members :: x !in rs[j].members
    {
      MulMono(j - i + 1, w, k);
      WindowDisjoint(q, k, i, j - i);
    }
  }

  /** The unit test without prior rotations: three people, two per one-week
      rotation, from Sunday 2025-05-25. */
  lemma GeneratedExample()
    ensures Generated(["alice", "bob", "charlie"], 2, 1748131200, SecondsPerWeek, 2) ==
      [Rotation(1748131200, ["alice", "bob"]), Rotation(1748131200 + SecondsPerWeek, ["charlie", "alice"])]
  {
    var q := ["alice", "bob", "charlie"];
    assert QueueAfter(q, 2, 0)[..2] == ["alice", "bob"];
    assert QueueAfter(q, 2, 1) == q[2..] + q[..2] == ["charlie", "alice", "bob"];
    assert QueueAfter(q, 2, 1)[..2] == ["charlie", "alice"];
    assert Generated(q, 2, 1748131200, SecondsPerWeek, 1) == [Rotation(1748131200, ["alice", "bob"])];
  }

  /** How taking rotations from the generator can fail. */
  datatype GeneratorError =
    | PopFromEmptyDeque   // `popleft` on an empty deque: more people per rotation than candidates
    | StopIteration       // the generator already raised and is finished
    | NegativeCount       // `islice` refuses a negative stop with a ValueError

  /** The start of the first new rotation: one rotation length after the last
      prior rotation's start, or the most recent Sunday without priors. */
  function FirstStart(prior: seq<Rotation>, rotationLength: int, now: int): (t: int)
    ensures |prior| > 0 ==> t - prior[|prior| - 1].start == rotationLength
    ensures |prior| == 0 ==> t % SecondsPerDay == 0 && now - 8 * SecondsPerDay < t <= now - SecondsPerDay
  {
    if |prior| > 0 then prior[|prior| - 1].start + rotationLength else MostRecentSunday(now)
  }

  /** How many times `for _ in range(n)` runs. */
  function RangeLength(n: int): (k: nat)
    ensures n >= 0 ==> k == n
    ensures n < 0 ==> k == 0
  {
    if n < 0 then 0 else n
  }

  /** The suspended generator `generate_additional_rotations`: the deque of
      least recent assignees and the start time of the next rotation. */
  class Generator {
    var queue: seq<string>
    var nextStart: int
    var failed: bool
    const peoplePerRotation: nat
    const rotationLength: int

    ghost const initialQueue: seq<string>
    ghost const firstStart: int
    ghost var emitted: seq<Rotation>

    ghost predicate Valid()
      reads this
    {
      && Distinct(initialQueue)
      && (failed ==> peoplePerRotation > |initialQueue| && emitted == [])
      && (!failed && peoplePerRotation > |initialQueue| ==>
            emitted == [] && queue == initialQueue && nextStart == firstStart)
      && (peoplePerRotation <= |initialQueue| ==>
            && !failed
            && queue == QueueAfter(initialQueue, peoplePerRotation, |emitted|)
            && nextStart == firstStart + |emitted| * rotationLength
            && emitted == Generated(initialQueue, peoplePerRotation, firstStart, rotationLength, |emitted|))
    }

    /** `generate_additional_rotations(prior, members, rotation_length_weeks,
        people_per_rotation, now)` up to its first `yield`. */
    constructor (prior: seq<Rotation>, members: seq<string>, rotationLengthWeeks: int,
                 peoplePerRotation: int, now: int)
      ensures Valid()
      ensures queue == initialQueue == InitialQueue(prior, members)
      ensures this.peoplePerRotation == RangeLength(peoplePerRotation)
      ensures rotationLength == rotationLengthWeeks * SecondsPerWeek
      ensures nextStart == firstStart == FirstStart(prior, rotationLength, now)
      ensures emitted == [] && !failed
    {
      var times := FindMostRecentServiceTimes(prior, members);
      ServiceTimesMatch(prior, members, times.order, times.last);
      var q := SortByServiceTime(times.order, times.last);
      assert q == InitialQueue(prior, members);
      InitialQueueIsFair(prior, members);
      var length := rotationLengthWeeks * SecondsPerWeek;
      var start := if |prior| > 0 then prior[|prior| - 1].start + length else MostRecentSunday(now);
      queue := q;
      initialQueue := q;
      this.peoplePerRotation := RangeLength(peoplePerRotation);
      rotationLength := length;
      nextStart := start;
      firstStart := start;
      emitted := [];
      failed := false;
    }

    /** `next(generator)`: take `peoplePerRotation` names off the front,
        yield them at the current start, put them back at the end. */
    method Next() returns (r: Result<Rotation, GeneratorError>)
      requires Valid()
      modifies this
      ensures Valid()
      ensures old(failed) ==> r == Err(StopIteration) && emitted == old(emitted) && failed
      ensures !old(failed) && peoplePerRotation > |old(queue)| ==>
        r == Err(PopFromEmptyDeque) && failed && emitted == old(emitted) && nextStart == old(nextStart)
      ensures !old(failed) && peoplePerRotation <= |old(queue)| ==>
        && r == Ok(Rotation(old(nextStart), old(queue)[..peoplePerRotation]))
        && queue == old(queue)[peoplePerRotation..] + old(queue)[..peoplePerRotation]
        && nextStart == old(nextStart) + rotationLength
        && emitted == old(emitted) + [r.value]
        && !failed
    {
      if failed {
        return Err(StopIteration);
      }
      var people: seq<string> := [];
      for i := 0 to peoplePerRotation
        invariant |old(queue)| >= i
        invariant people == old(queue)[..i] && queue == old(queue)[i..]
        invariant nextStart == old(nextStart) && emitted == old(emitted) && !failed
      {
        if |queue| == 0 {
          failed := true;
          return Err(PopFromEmptyDeque);
        }
        people := people + [queue[0]];
        queue := queue[1..];
      }
      r := Ok(Rotation(nextStart, people));
      nextStart := nextStart + rotationLength;
      queue := queue + people;
      emitted := emitted + [r.value];
    }
  }

  /** `list(itertools.islice(generator, count))` on a fresh generator: the
      first `count` rotations, or the error raised while producing them. A
      negative count is refused before the generator runs. */
  method Take(g: Generator, count: int) returns (r: Result<seq<Rotation>, GeneratorError>)
    requires g.Valid() && !g.failed && g.emitted == []
    modifies g
    ensures g.Valid()
    ensures r == Err(NegativeCount) <==> count < 0
    ensures count < 0 ==> unchanged(g)
    ensures r.Ok? ==> g.emitted == r.value
    ensures r.Err? <==> count < 0 || (count > 0 && g.peoplePerRotation > |g.initialQueue|)
    ensures r.Err? && count >= 0 ==> r.error == PopFromEmptyDeque
    ensures r.Ok? ==> g.peoplePerRotation <= |g.initialQueue| || count == 0
    ensures r.Ok? && g.peoplePerRotation <= |g.initialQueue| ==>
      r.value == Generated(g.initialQueue, g.peoplePerRotation, g.firstStart, g.rotationLength, count)
    ensures r.Ok? && count == 0 ==> r.value == []
  {
    if count < 0 {
      return Err(NegativeCount);
    }
    var rotations: seq<Rotation> := [];
    for i := 0 to count
      invariant g.Valid() && !g.failed && rotations == g.emitted && |rotations| == i
      invariant i > 0 ==> g.peoplePerRotation <= |g.initialQueue|
    {
      var next := g.Next();
      if next.Err? {
        return Err(next.error);
      }
      rotations := rotations + [next.value];
    }
    return Ok(rotations);
  }

  /** The schedule `main` writes: the prior rotations followed by `count` new
      ones of `peoplePerRotation` people, `rotationLengthWeeks` apart. */
  function Plan(prior: seq<Rotation>, q: seq<string>, rotationLengthWeeks: int,
                peoplePerRotation: int, now: int, count: int): (r: Result<seq<Rotation>, GeneratorError>)
    ensures r == Err(NegativeCount) <==> count < 0
    ensures r == Err(PopFromEmptyDeque) <==> count > 0 && RangeLength(peoplePerRotation) > |q|
    ensures r.Ok? ==> |r.value| == |prior| + count && r.value[..|prior|] == prior
  {
    var k := RangeLength(peoplePerRotation);
    var length := rotationLengthWeeks * SecondsPerWeek;
    if count < 0 then Err(NegativeCount)
    else if k > |q| then (if count > 0 then Err(PopFromEmptyDeque) else Ok(prior))
    else Ok(prior + Generated(q, k, FirstStart(prior, length, now), length, count))
  }

  /** The lines of `main` that build and run the generator, with the
      arguments in the order `generate_additional_rotations` declares them. */
  method ExtendSchedule(prior: seq<Rotation>, members: seq<string>, rotationLengthWeeks: int,
                        peoplePerRotation: int, now: int, count: int)
    returns (r: Result<seq<Rotation>, GeneratorError>)
    ensures r == Plan(prior, InitialQueue(prior, members), rotationLengthWeeks, peoplePerRotation, now, count)
  {
    var g := new Generator(prior, members, rotationLengthWeeks, peoplePerRotation, now);
    var extra := Take(g, count);
    r := if extra.Ok? then Ok(prior + extra.value) else Err(extra.error);
    assert prior + [] == prior;
  }

  /** The same lines as written: `people_per_rotation` is passed where the
      rotation length goes and `rotation_length_weeks` where the team size
      goes. */
  method ExtendScheduleAsWritten(prior: seq<Rotation>, members: seq<string>, rotationLengthWeeks: int,
                                 peoplePerRotation: int, now: int, count: int)
    returns (r: Result<seq<Rotation>, GeneratorError>)
    ensures r == Plan(prior, InitialQueue(prior, members), peoplePerRotation, rotationLengthWeeks, now, count)
  {
    var g := new Generator(prior, members, peoplePerRotation, rotationLengthWeeks, now);
    var extra := Take(g, count);
    r := if extra.Ok? then Ok(prior + extra.value) else Err(extra.error);
    assert prior + [] == prior;
  }

  /** Every generated rotation has `k` distinct people and starts `i`
      rotation lengths after the first. */
  lemma GeneratedShape(q: seq<string>, k: nat, first: int, length: int, n: nat, i: nat)
    requires Distinct(q) && k <= |q| && i < n
    ensures var r := Generated(q, k, first, length, n)[i];
      && |r.members| == k && Distinct(r.members) && r.start == first + i * length
      && forall x | x in r.members :: x in q
  {
    GeneratedAt(q, k, first, length, n, i);
    QueueAfterDistinct(q, k, i);
    QueueAfterPerm(q, k, i);
    var p := QueueAfter(q, k, i);
    forall x | x in p[..k]
      ensures x in q
    {
      assert x in multiset(p);
    }
  }

  /** What the schedule promises: the prior rotations untouched, then `count`
      rotations of exactly `peoplePerRotation` distinct people, one rotation
      length apart, the first one rotation length after the last prior start. */
  lemma PlanShape(prior: seq<Rotation>, q: seq<string>, rotationLengthWeeks: int,
                  peoplePerRotation: int, now: int, count: int)
    requires Distinct(q)
    requires Plan(prior, q, rotationLengthWeeks, peoplePerRotation, now, count).Ok?
    ensures var rs := Plan(prior, q, rotationLengthWeeks, peoplePerRotation, now, count).value;
      var length := rotationLengthWeeks * SecondsPerWeek;
      && |rs| == |prior| + count
      && rs[..|prior|] == prior
      && forall i | |prior| <= i < |rs| ::
           && |rs[i].members| == RangeLength(peoplePerRotation)
           && Distinct(rs[i].members)
           && (forall x | x in rs[i].members :: x in q)
           && rs[i].start == FirstStart(prior, length, now) + (i - |prior|) * length
  {
    var k := RangeLength(peoplePerRotation);
    var length := rotationLengthWeeks * SecondsPerWeek;
    if k <= |q| {
      var first := FirstStart(prior, length, now);
      var gs := Generated(q, k, first, length, count);
      var rs := prior + gs;
      assert rs[..|prior|] == prior;
      forall i | |prior| <= i < |rs|
        ensures rs[i] == gs[i - |prior|]
        ensures |rs[i].members| == k && Distinct(rs[i].members) && rs[i].start == first + (i - |prior|) * length
        ensures forall x | x in rs[i].members :: x in q
      {
        GeneratedShape(q, k, first, length, count, i - |prior|);
      }
    } else {
      assert prior + [] == prior;
    }
  }

  /** With prior rotations, the schedule `main` actually writes has
      `rotationLengthWeeks` people per rotation and rotations
      `peoplePerRotation` weeks long: the two settings trade places. */
  lemma MainSwapsSettings(prior: seq<Rotation>, q: seq<string>, rotationLengthWeeks: int,
                          peoplePerRotation: int, now: int, count: int)
    requires Distinct(q) && |prior| > 0 && count > 0
    requires Plan(prior, q, peoplePerRotation, rotationLengthWeeks, now, count).Ok?
    ensures var rs := Plan(prior, q, peoplePerRotation, rotationLengthWeeks, now, count).value;
      && |rs[|prior|].members| == RangeLength(rotationLengthWeeks)
      && rs[|prior|].start == prior[|prior| - 1].start + peoplePerRotation * SecondsPerWeek
  {
    PlanShape(prior, q, peoplePerRotation, rotationLengthWeeks, now, count);
  }

  // ---------------------------------------------------------------------
  // calculate_rotations_to_cover

  datatype CoverError =
    | NoExistingRotations   // ValueError("No existing rotations to extend from.")
    | DivisionByZero        // a zero-week rotation length with a gap left to cover

  /** How many more rotations it takes to reach `when`. */
  function CalculateRotationsToCover(when: int, rotationLengthWeeks: int, current: seq<Rotation>): (r: Result<int, CoverError>)
    ensures r == Err(NoExistingRotations) <==> |current| == 0
  {
    if |current| == 0 then Err(NoExistingRotations)
    else
      var end := current[|current| - 1].start + rotationLengthWeeks * SecondsPerWeek;
      if end >= when then Ok(0)
      else if rotationLengthWeeks == 0 then Err(DivisionByZero)
      else
        var daysNeeded := CeilDiv(when - end, SecondsPerDay);
        Ok(CeilDiv(daysNeeded, 7 * rotationLengthWeeks))
  }

  /** For a positive rotation length the count is the least number of further
      rotations whose end reaches `when`; zero exactly when the last rotation
      already ends at or after `when`. */
  lemma RotationsToCoverIsLeast(when: int, rotationLengthWeeks: int, current: seq<Rotation>)
    requires |current| > 0 && rotationLengthWeeks > 0
    ensures var end := current[|current| - 1].start + rotationLengthWeeks * SecondsPerWeek;
      var r := CalculateRotationsToCover(when, rotationLengthWeeks, current);
      && r.Ok? && r.value >= 0
      && (r.value == 0 <==> end >= when)
      && end + r.value * (rotationLengthWeeks * SecondsPerWeek) >= when
      && (r.value > 0 ==> end + (r.value - 1) * (rotationLengthWeeks * SecondsPerWeek) < when)
  {
    var end := current[|current| - 1].start + rotationLengthWeeks * SecondsPerWeek;
    if end < when {
      var delta := when - end;
      var days := CeilDiv(delta, SecondsPerDay);
      var perRotation := 7 * rotationLengthWeeks;
      var n := CeilDiv(days, perRotation);
      assert days >= 1;
      assert n >= 1 by {
        assert n * perRotation >= days;
      }
      assert n * (rotationLengthWeeks * SecondsPerWeek) == (n * perRotation) * SecondsPerDay;
      assert (n * perRotation) * SecondsPerDay >= days * SecondsPerDay;
      assert (n - 1) * perRotation <= days - 1;
      assert (n - 1) * (rotationLengthWeeks * SecondsPerWeek) == ((n - 1) * perRotation) * SecondsPerDay;
      assert ((n - 1) * perRotation) * SecondsPerDay <= (days - 1) * SecondsPerDay;
    }
  }

  /** The unit tests' cases: a two-week rotation starting 2025-05-01 ends
      2025-05-15; reaching 2025-05-10 needs none, 2025-05-20 one, 2025-06-10 two. */
  lemma RotationsToCoverExamples()
    ensures CalculateRotationsToCover(1746835200, 2, [Rotation(1746057600 - 2 * SecondsPerWeek, ["bob", "charlie"]),
                                                     Rotation(1746057600, ["alice", "bob"])]) == Ok(0)
    ensures CalculateRotationsToCover(1747699200, 2, [Rotation(1746057600, ["alice", "bob"])]) == Ok(1)
    ensures CalculateRotationsToCover(1749513600, 2, [Rotation(1746057600, ["alice", "bob"])]) == Ok(2)
    ensures CalculateRotationsToCover(1749513600, 2, []) == Err(NoExistingRotations)
  {
  }
}
