/** The outbox publisher: fetch a batch in id order, publish until the first failure,
    mark what was published. Rows become visible when their transaction commits, which
    may happen between a fetch and the publishing of its batch. */
module Publisher {

  /** `committed` lists the visible row ids in commit order, `log` what the broker
      received, `inflight` the batch the single worker is holding. */
  datatype Pub = Pub(committed: seq<nat>, marked: set<nat>, log: seq<nat>, inflight: seq<nat>)

  const IDLE := Pub([], {}, [], [])

  datatype Step =
    | Commit(id: nat)
    | Select(limit: nat)
    | Drain(sent: nat, markOk: bool)

  function Ids(s: seq<nat>): set<nat> {
    set x | x in s
  }

  /* ---------- the batch ---------- */

  ghost predicate IsMin(u: set<nat>, m: nat) {
    m in u && forall y :: y in u ==> m <= y
  }

  ghost function Min(u: set<nat>): (m: nat)
    requires u != {}
    ensures IsMin(u, m)
  {
    MinExists(u);
    var m :| IsMin(u, m);
    m
  }

  lemma {:induction false} MinExists(u: set<nat>)
    requires u != {}
    ensures exists m :: IsMin(u, m)
  {
    var x :| x in u;
    var rest := u - {x};
    assert forall y :: y in u ==> y == x || y in rest;
    if rest == {} {
      assert IsMin(u, x);
    } else {
      MinExists(rest);
      var m :| IsMin(rest, m);
      assert IsMin(u, if x <= m then x else m);
    }
  }

  /** The `limit` smallest elements, ascending. */
  ghost function Fetch(u: set<nat>, limit: nat): seq<nat> {
    if limit == 0 || u == {} then []
    else [Min(u)] + Fetch(u - {Min(u)}, limit - 1)
  }

  lemma {:induction false} FetchMembers(u: set<nat>, limit: nat)
    ensures forall x :: x in Fetch(u, limit) ==> x in u
  {
    if limit != 0 && u != {} {
      FetchMembers(u - {Min(u)}, limit - 1);
    }
  }

  /** A fetched row is preceded in its batch by every smaller candidate. */
  lemma {:induction false} FetchKeepsOrder(u: set<nat>, limit: nat, a: nat, j: nat)
    requires a in u && j < |Fetch(u, limit)| && a < Fetch(u, limit)[j]
    ensures exists i :: 0 <= i < j && Fetch(u, limit)[i] == a
  {
    var m := Min(u);
    if a == m {
      assert Fetch(u, limit)[0] == a;
    } else {
      var rest := Fetch(u - {m}, limit - 1);
      assert j > 0 && Fetch(u, limit)[j] == rest[j - 1];
      FetchKeepsOrder(u - {m}, limit - 1, a, j - 1);
      var i :| 0 <= i < j - 1 && rest[i] == a;
      assert Fetch(u, limit)[i + 1] == a;
    }
  }

  /* ---------- steps ---------- */

  function Sent(p: Pub, n: nat): seq<nat> {
    p.inflight[..if n < |p.inflight| then n else |p.inflight|]
  }

  ghost function Next(p: Pub, step: Step): Pub {
    match step
    case Commit(id) => if id in p.committed then p else p.(committed := p.committed + [id])
    case Select(limit) => p.(inflight := Fetch(Ids(p.committed) - p.marked, limit))
    case Drain(n, markOk) =>
      Pub(p.committed, if markOk then p.marked + Ids(Sent(p, n)) else p.marked, p.log + Sent(p, n), [])
  }

  ghost function Run(steps: seq<Step>): Pub {
    if steps == [] then IDLE else Next(Run(steps[..|steps| - 1]), steps[|steps| - 1])
  }

  lemma RunSnoc(steps: seq<Step>, step: Step)
    ensures Run(steps + [step]) == Next(Run(steps), step)
  {
    assert (steps + [step])[..|steps|] == steps;
  }

  /** Nothing is marked that the broker did not receive, nothing is sent that is not
      committed. */
  ghost predicate Honest(p: Pub) {
    && (forall x :: x in p.marked ==> x in p.log)
    && (forall x :: x in p.log ==> x in p.committed)
    && (forall x :: x in p.inflight ==> x in p.committed)
  }

  lemma NextHonest(p: Pub, step: Step)
    requires Honest(p)
    ensures Honest(Next(p, step))
    ensures p.log <= Next(p, step).log && p.committed <= Next(p, step).committed && p.marked <= Next(p, step).marked
  {
    if step.Select? {
      FetchMembers(Ids(p.committed) - p.marked, step.limit);
    }
  }

  lemma {:induction false} RunHonest(steps: seq<Step>)
    ensures Honest(Run(steps))
  {
    if steps != [] {
      RunHonest(steps[..|steps| - 1]);
      NextHonest(Run(steps[..|steps| - 1]), steps[|steps| - 1]);
    }
  }

  /* ---------- refinement: ids committed in order ---------- */

  ghost predicate Ascending(s: seq<nat>) {
    forall i, j :: 0 <= i < j < |s| ==> s[i] < s[j]
  }

  /** The log with repeats removed: each id where it first appears. */
  function First(log: seq<nat>): seq<nat> {
    if log == [] then []
    else
      var init, last := log[..|log| - 1], log[|log| - 1];
      if last in init then First(init) else First(init) + [last]
  }

  lemma {:induction false} FirstMembers(log: seq<nat>)
    ensures forall x :: x in First(log) <==> x in log
  {
    if log != [] {
      var init, last := log[..|log| - 1], log[|log| - 1];
      FirstMembers(init);
      assert log == init + [last];
    }
  }

  lemma FirstSnoc(log: seq<nat>, x: nat)
    ensures First(log + [x]) == if x in log then First(log) else First(log) + [x]
  {
    assert (log + [x])[..|log|] == log;
  }

  /** The head of an ascending sequence is its least id, and the tail holds the others. */
  lemma AscendingHead(s: seq<nat>)
    requires Ascending(s) && s != []
    ensures s[0] in Ids(s) && Min(Ids(s)) == s[0] && Ids(s) - {s[0]} == Ids(s[1..])
  {
    assert s[0] in Ids(s);
    var m := Min(Ids(s));
    assert m in s && m <= s[0];
    var i :| 0 <= i < |s| && s[i] == m;
    forall x
      ensures x in Ids(s) - {s[0]} <==> x in Ids(s[1..])
    {
      if x in Ids(s) - {s[0]} {
        var j :| 0 <= j < |s| && s[j] == x;
        assert s[1..][j - 1] == x;
      }
      if x in Ids(s[1..]) {
        var j :| 0 <= j < |s[1..]| && s[1..][j] == x;
        assert s[j + 1] == x;
      }
    }
  }

  lemma {:induction false} FetchIsSlice(s: seq<nat>, limit: nat)
    requires Ascending(s)
    ensures Fetch(Ids(s), limit) <= s
  {
    if limit != 0 && s != [] {
      AscendingHead(s);
      FetchIsSlice(s[1..], limit - 1);
    }
  }

  /** While ids commit in order: the first `m` rows are marked, the deduplicated log is an
      initial stretch of the outbox at least that long, and the batch starts at row m. */
  ghost predicate InStep(p: Pub, m: nat) {
    && Ascending(p.committed)
    && First(p.log) <= p.committed
    && m <= |First(p.log)|
    && p.marked == Ids(p.committed[..m])
    && p.inflight <= p.committed[m..]
  }

  /** Publishing row `at`, when the rows before it are already in the log. */
  lemma SendOne(sent: seq<nat>, rows: seq<nat>, k: nat, at: nat)
    requires Ascending(rows) && k <= |rows| && First(sent) == rows[..k] && at <= k && at < |rows|
    ensures First(sent + [rows[at]]) == rows[..if at == k then k + 1 else k]
  {
    var x := rows[at];
    FirstSnoc(sent, x);
    FirstMembers(sent);
    if at < k {
      assert rows[..k][at] == x;
    } else {
      assert x !in rows[..k];
      assert rows[..k + 1] == rows[..k] + [x];
    }
  }

  function Max(a: nat, b: nat): nat {
    if a > b then a else b
  }

  /** Publishing `n` rows from row `m` on, when the first `k` rows are in the log. */
  lemma {:induction false} SendStretch(log: seq<nat>, rows: seq<nat>, k: nat, m: nat, n: nat)
    requires Ascending(rows) && m <= k <= |rows| && First(log) == rows[..k] && m + n <= |rows|
    ensures First(log + rows[m..m + n]) == rows[..Max(m + n, k)]
  {
    if n == 0 {
      assert log + rows[m..m] == log;
    } else {
      SendStretch(log, rows, k, m, n - 1);
      var at := m + n - 1;
      assert log + rows[m..m + n] == log + rows[m..at] + [rows[at]];
      SendOne(log + rows[m..at], rows, Max(at, k), at);
    }
  }

  lemma SendExtendsFirst(p: Pub, m: nat, n: nat)
    requires InStep(p, m) && n <= |p.inflight|
    ensures m + n <= |p.committed|
    ensures First(p.log + p.inflight[..n]) == p.committed[..Max(m + n, |First(p.log)|)]
  {
    assert p.inflight[..n] == p.committed[m..][..n] == p.committed[m..m + n];
    SendStretch(p.log, p.committed, |First(p.log)|, m, n);
  }

  lemma CommitInStep(p: Pub, m: nat, id: nat)
    requires InStep(p, m) && Ascending(Next(p, Commit(id)).committed)
    ensures InStep(Next(p, Commit(id)), m)
  {
    if id !in p.committed {
      assert (p.committed + [id])[..m] == p.committed[..m];
      assert (p.committed + [id])[m..] == p.committed[m..] + [id];
    }
  }

  lemma Unmarked(s: seq<nat>, m: nat)
    requires Ascending(s) && m <= |s|
    ensures Ids(s) - Ids(s[..m]) == Ids(s[m..])
  {
    assert s == s[..m] + s[m..];
    forall x | x in Ids(s[m..])
      ensures x !in Ids(s[..m])
    {
      var i :| 0 <= i < |s[m..]| && s[m..][i] == x;
      assert s[m + i] == x;
    }
  }

  lemma SelectInStep(p: Pub, m: nat, limit: nat)
    requires InStep(p, m)
    ensures InStep(Next(p, Select(limit)), m)
    ensures Next(p, Select(limit)).inflight == Fetch(Ids(p.committed[m..]), limit)
  {
    Unmarked(p.committed, m);
    FetchIsSlice(p.committed[m..], limit);
  }

  lemma IdsConcat(s: seq<nat>, t: seq<nat>)
    ensures Ids(s + t) == Ids(s) + Ids(t)
  {
  }

  lemma DrainInStep(p: Pub, m: nat, n: nat, markOk: bool)
    requires InStep(p, m)
    ensures InStep(Next(p, Drain(n, markOk)), if markOk then m + |Sent(p, n)| else m)
  {
    var sent := |Sent(p, n)|;
    SendExtendsFirst(p, m, sent);
    assert Sent(p, n) == p.inflight[..sent] == p.committed[m..][..sent];
    IdsConcat(p.committed[..m], Sent(p, n));
    assert p.committed[..m + sent] == p.committed[..m] + Sent(p, n);
  }

  lemma NextInStep(p: Pub, m: nat, step: Step) returns (m': nat)
    requires InStep(p, m) && Ascending(Next(p, step).committed)
    ensures InStep(Next(p, step), m')
  {
    m' := m;
    match step
    case Commit(id) => CommitInStep(p, m, id);
    case Select(limit) => SelectInStep(p, m, limit);
    case Drain(n, markOk) =>
      DrainInStep(p, m, n, markOk);
      m' := if markOk then m + |Sent(p, n)| else m;
  }

  lemma {:induction false} RunInStep(steps: seq<Step>) returns (m: nat)
    requires Ascending(Run(steps).committed)
    ensures InStep(Run(steps), m)
  {
    if steps == [] {
      m := 0;
    } else {
      var init := Run(steps[..|steps| - 1]);
      RunHonest(steps[..|steps| - 1]);
      NextHonest(init, steps[|steps| - 1]);
      m := RunInStep(steps[..|steps| - 1]);
      m := NextInStep(init, m, steps[|steps| - 1]);
    }
  }

  /** For every sequence of ticks, publish failures and mark failures over rows committed
      in id order: the broker log with repeats removed is an initial stretch of the
      outbox, and the marked rows are an initial stretch of that. */
  lemma PublisherRefinesOutbox(steps: seq<Step>) returns (m: nat)
    requires Ascending(Run(steps).committed)
    ensures First(Run(steps).log) <= Run(steps).committed
    ensures m <= |First(Run(steps).log)| && Run(steps).marked == Ids(First(Run(steps).log)[..m])
    ensures Honest(Run(steps))
  {
    m := RunInStep(steps);
    RunHonest(steps);
    var p := Run(steps);
    assert First(p.log)[..m] == p.committed[..m];
  }

  /* ---------- draining ---------- */

  /** Visible rows that are not marked. */
  ghost function Backlog(p: Pub): set<nat> {
    Ids(p.committed) - p.marked
  }

  /** A tick in which nothing fails. */
  ghost function Tick(p: Pub, limit: nat): Pub {
    Next(Next(p, Select(limit)), Drain(limit, true))
  }

  ghost function Ticks(p: Pub, limit: nat, n: nat): Pub
    decreases n
  {
    if n == 0 then p else Ticks(Tick(p, limit), limit, n - 1)
  }

  /** A batch takes `limit` rows off the candidates, or all of them. */
  lemma {:induction false} FetchTakes(u: set<nat>, limit: nat)
    ensures |Fetch(u, limit)| <= limit
    ensures |u - Ids(Fetch(u, limit))| == if |u| <= limit then 0 else |u| - limit
  {
    if limit == 0 || u == {} {
      assert u - Ids([]) == u;
    } else {
      var rest := u - {Min(u)};
      var batch := Fetch(rest, limit - 1);
      FetchTakes(rest, limit - 1);
      assert u - Ids([Min(u)] + batch) == rest - Ids(batch);
    }
  }

  /** What remains of `b` rows after `k` of them are taken. */
  function Left(b: nat, k: nat): nat {
    if b <= k then 0 else b - k
  }

  lemma TickShrinksBacklog(p: Pub, limit: nat)
    requires Honest(p)
    ensures Honest(Tick(p, limit)) && Tick(p, limit).committed == p.committed
    ensures |Backlog(Tick(p, limit))| == Left(|Backlog(p)|, limit)
  {
    var q := Next(p, Select(limit));
    NextHonest(p, Select(limit));
    NextHonest(q, Drain(limit, true));
    FetchTakes(Backlog(p), limit);
    assert Sent(q, limit) == q.inflight == Fetch(Backlog(p), limit);
    assert Backlog(Tick(p, limit)) == Backlog(p) - Ids(q.inflight);
  }

  /** The rows are as they were, and all of them published and marked. */
  ghost predicate Done(p: Pub, committed: seq<nat>) {
    && p.committed == committed && p.marked == Ids(committed)
    && (forall x :: x in committed ==> x in p.log)
  }

  lemma NoBacklog(p: Pub)
    requires Honest(p) && |Backlog(p)| == 0
    ensures Done(p, p.committed)
  {
    assert Backlog(p) == {};
    forall x
      ensures x in p.marked <==> x in Ids(p.committed)
    {
      assert x in Backlog(p) <==> x in Ids(p.committed) && x !in p.marked;
    }
  }

  /** However many rows there ever were, and in whatever order they became visible, `n`
      healthy ticks publish and mark a backlog of up to `n` batches. */
  lemma {:induction false} HealthyTicksDrain(p: Pub, limit: nat, n: nat)
    requires Honest(p) && |Backlog(p)| <= n * limit
    ensures Done(Ticks(p, limit, n), p.committed)
    decreases n
  {
    if n == 0 {
      NoBacklog(p);
    } else {
      TickShrinksBacklog(p, limit);
      OneBatchLess(|Backlog(p)|, limit, n);
      HealthyTicksDrain(Tick(p, limit), limit, n - 1);
    }
  }

  lemma OneBatchLess(b: nat, limit: nat, n: nat)
    requires b <= n * limit && n > 0
    ensures Left(b, limit) <= (n - 1) * limit
  {
    assert n * limit == (n - 1) * limit + limit;
  }

  lemma {:induction false} TicksInStep(p: Pub, m: nat, limit: nat, n: nat) returns (m': nat)
    requires InStep(p, m)
    ensures InStep(Ticks(p, limit, n), m')
    decreases n
  {
    if n == 0 {
      m' := m;
    } else {
      SelectInStep(p, m, limit);
      DrainInStep(Next(p, Select(limit)), m, limit, true);
      m' := TicksInStep(Tick(p, limit), m + |Sent(Next(p, Select(limit)), limit)|, limit, n - 1);
    }
  }

  lemma InStepIsHonest(p: Pub, m: nat)
    requires InStep(p, m)
    ensures Honest(p)
  {
    FirstMembers(p.log);
    forall x | x in p.marked
      ensures x in p.log
    {
      var i :| 0 <= i < m && p.committed[..m][i] == x;
      assert First(p.log)[i] == x;
    }
  }

  lemma {:induction false} FewIds(s: seq<nat>)
    ensures |Ids(s)| <= |s|
  {
    if s != [] {
      var init := s[..|s| - 1];
      FewIds(init);
      assert s == init + [s[|s| - 1]];
      assert Ids(s) == Ids(init) + {s[|s| - 1]};
    }
  }

  lemma PrefixWithAll(s: seq<nat>, t: seq<nat>)
    requires s <= t && Ascending(t) && forall x :: x in t ==> x in s
    ensures s == t
  {
    if |s| < |t| {
      LaterIsAbsent(s, t);
    }
  }

  lemma LaterIsAbsent(s: seq<nat>, t: seq<nat>)
    requires s <= t && Ascending(t) && |s| < |t|
    ensures t[|s|] in t && t[|s|] !in s
  {
  }

  /** With rows committed in id order, `n` healthy ticks catch up with up to `n` batches of
      unmarked rows: the deduplicated log is then the outbox, and every row is marked. */
  lemma HealthyTicksCatchUp(p: Pub, m: nat, limit: nat, n: nat)
    requires InStep(p, m) && |p.committed| - m <= n * limit
    ensures
      var done := Ticks(p, limit, n);
      First(done.log) == p.committed && done.marked == Ids(p.committed)
  {
    InStepIsHonest(p, m);
    Unmarked(p.committed, m);
    FewIds(p.committed[m..]);
    HealthyTicksDrain(p, limit, n);
    var m' := TicksInStep(p, m, limit, n);
    var done := Ticks(p, limit, n);
    FirstMembers(done.log);
    PrefixWithAll(First(done.log), p.committed);
  }

  /* ---------- precedence, with ids committed in any order ---------- */

  /** `a` is in the log before each place `b` is, and stays so. */
  ghost predicate Precedes(p: Pub, a: nat, b: nat) {
    && (b in p.committed ==> a in p.committed)
    && (forall j :: 0 <= j < |p.log| && p.log[j] == b ==> a in p.log[..j])
    && (forall j :: 0 <= j < |p.inflight| && p.inflight[j] == b ==> a in p.log || a in p.inflight[..j])
  }

  /** A smaller row that was visible when `b` became visible keeps reaching the broker
      first, whatever the other rows do. */
  lemma NextPrecedes(p: Pub, step: Step, a: nat, b: nat)
    requires Honest(p) && Precedes(p, a, b) && a < b
    requires step == Commit(b) ==> a in p.committed
    ensures Precedes(Next(p, step), a, b)
  {
    match step
    case Commit(id) =>
    case Select(limit) =>
      var u := Ids(p.committed) - p.marked;
      var batch := Fetch(u, limit);
      FetchMembers(u, limit);
      forall j | 0 <= j < |batch| && batch[j] == b
        ensures a in p.log || a in batch[..j]
      {
        assert b in u && a in p.committed;
        if a !in p.marked {
          FetchKeepsOrder(u, limit, a, j);
          var i :| 0 <= i < j && batch[i] == a;
          assert batch[..j][i] == a;
        }
      }
    case Drain(n, markOk) =>
      DrainPrecedes(p, n, a, b);
  }

  lemma DrainPrecedes(p: Pub, n: nat, a: nat, b: nat)
    requires Precedes(p, a, b)
    ensures
      var log := p.log + Sent(p, n);
      forall j :: 0 <= j < |log| && log[j] == b ==> a in log[..j]
  {
    var log := p.log + Sent(p, n);
    forall j | 0 <= j < |log| && log[j] == b
      ensures a in log[..j]
    {
      if j < |p.log| {
        assert log[..j] == p.log[..j];
      } else {
        var i := j - |p.log|;
        assert p.inflight[i] == b;
        assert log[..j] == p.log + p.inflight[..i];
      }
    }
  }

  /* ---------- exactly when a row is overtaken ---------- */

  /** `b` is in the log at a place that no `a` precedes. */
  ghost predicate OvertakesAt(log: seq<nat>, a: nat, b: nat, j: nat) {
    j < |log| && log[j] == b && a !in log[..j]
  }

  ghost predicate Overtakes(log: seq<nat>, a: nat, b: nat) {
    exists j: nat :: OvertakesAt(log, a, b, j)
  }

  /** The rows that were visible when the worker last fetched. */
  ghost function SeenByFetch(steps: seq<Step>): seq<nat> {
    if steps == [] then []
    else
      var init, last := steps[..|steps| - 1], steps[|steps| - 1];
      if last.Select? then Run(init).committed else SeenByFetch(init)
  }

  /** Step `k` publishes `b` for the first time, from a batch that was fetched before `a`
      was visible. */
  ghost predicate SentBlind(steps: seq<Step>, k: nat, a: nat, b: nat) {
    && k < |steps| && steps[k].Drain?
    && b in Sent(Run(steps[..k]), steps[k].sent) && b !in Run(steps[..k]).log
    && a !in SeenByFetch(steps[..k])
  }

  /** The batch in flight is ordered among the rows its fetch saw, and nothing was
      published since that fetch. */
  ghost predicate FetchedFrom(p: Pub, seen: seq<nat>) {
    && (forall x :: x in p.inflight ==> x in seen)
    && (p.inflight != [] ==> forall x :: x in p.log ==> x in seen)
    && (forall j, a :: 0 <= j < |p.inflight| && a in seen && a < p.inflight[j] ==> a in p.log || a in p.inflight[..j])
  }

  lemma SelectFetchesFrom(p: Pub, limit: nat)
    requires Honest(p)
    ensures FetchedFrom(Next(p, Select(limit)), p.committed)
  {
    var u := Ids(p.committed) - p.marked;
    var batch := Fetch(u, limit);
    FetchMembers(u, limit);
    forall j, a | 0 <= j < |batch| && a in p.committed && a < batch[j]
      ensures a in p.log || a in batch[..j]
    {
      if a !in p.marked {
        FetchKeepsOrder(u, limit, a, j);
        var i :| 0 <= i < j && batch[i] == a;
        assert batch[..j][i] == a;
      }
    }
  }

  lemma {:induction false} RunFetchedFrom(steps: seq<Step>)
    ensures FetchedFrom(Run(steps), SeenByFetch(steps))
  {
    if steps != [] {
      var init, last := steps[..|steps| - 1], steps[|steps| - 1];
      RunFetchedFrom(init);
      RunHonest(init);
      if last.Select? {
        SelectFetchesFrom(Run(init), last.limit);
      }
    }
  }

  /** A blind send is an overtaking. */
  lemma BlindSendOvertakes(steps: seq<Step>, k: nat, a: nat, b: nat)
    requires SentBlind(steps, k, a, b)
    ensures Overtakes(Run(steps[..k + 1]).log, a, b)
  {
    var p := Run(steps[..k]);
    assert steps[..k + 1][..k] == steps[..k];
    RunFetchedFrom(steps[..k]);
    var sent := Sent(p, steps[k].sent);
    var i :| 0 <= i < |sent| && sent[i] == b;
    var log := p.log + sent;
    assert p.inflight[i] == b;
    assert log[..|p.log| + i] == p.log + p.inflight[..i];
    assert a !in p.inflight[..i] && a !in p.log;
    assert OvertakesAt(log, a, b, |p.log| + i);
  }

  lemma OvertakingLasts(log: seq<nat>, log': seq<nat>, a: nat, b: nat)
    requires log <= log' && Overtakes(log, a, b)
    ensures Overtakes(log', a, b)
  {
    var j: nat :| OvertakesAt(log, a, b, j);
    assert log'[..j] == log[..j];
    assert OvertakesAt(log', a, b, j);
  }

  lemma {:induction false} LogGrows(steps: seq<Step>, k: nat)
    requires k <= |steps|
    ensures Run(steps[..k]).log <= Run(steps).log
    decreases |steps|
  {
    if k == |steps| {
      assert steps[..k] == steps;
    } else {
      var init := steps[..|steps| - 1];
      LogGrows(init, k);
      assert init[..k] == steps[..k];
      RunHonest(init);
      NextHonest(Run(init), steps[|steps| - 1]);
    }
  }

  /** A drain that makes `b` overtake `a` sends `b` blind. */
  lemma OvertakingSendIsBlind(p: Pub, seen: seq<nat>, n: nat, a: nat, b: nat)
    requires FetchedFrom(p, seen) && a < b
    requires !Overtakes(p.log, a, b) && Overtakes(p.log + Sent(p, n), a, b)
    ensures b in Sent(p, n) && b !in p.log && a !in seen
  {
    var log := p.log + Sent(p, n);
    var j: nat :| OvertakesAt(log, a, b, j);
    if j < |p.log| {
      assert log[..j] == p.log[..j];
      assert OvertakesAt(p.log, a, b, j);
    }
    var i := j - |p.log|;
    assert log[..j] == p.log + p.inflight[..i];
    assert p.inflight[i] == b && Sent(p, n)[i] == b;
    if b in p.log {
      OnceBehind(p.log, a, b);
    }
  }

  lemma OnceBehind(log: seq<nat>, a: nat, b: nat)
    requires !Overtakes(log, a, b) && b in log
    ensures a in log
  {
    var k :| 0 <= k < |log| && log[k] == b;
    assert !OvertakesAt(log, a, b, k);
    assert a in log[..k];
  }

  lemma {:induction false} OvertakingHasBlindSend(steps: seq<Step>, a: nat, b: nat) returns (k: nat)
    requires a < b && Overtakes(Run(steps).log, a, b)
    ensures SentBlind(steps, k, a, b)
  {
    var init, last := steps[..|steps| - 1], steps[|steps| - 1];
    if Overtakes(Run(init).log, a, b) {
      k := OvertakingHasBlindSend(init, a, b);
      assert init[..k] == steps[..k];
    } else {
      k := |steps| - 1;
      RunFetchedFrom(init);
      OvertakingSendIsBlind(Run(init), SeenByFetch(init), last.sent, a, b);
    }
  }

  /** In any run, with rows committed in any order: a row reaches the broker with no
      smaller row `a` ahead of it exactly when some drain first publishes it from a batch
      that was fetched before `a` was visible. */
  lemma OvertakesIff(steps: seq<Step>, a: nat, b: nat)
    requires a < b
    ensures Overtakes(Run(steps).log, a, b) <==> exists k: nat :: SentBlind(steps, k, a, b)
  {
    if Overtakes(Run(steps).log, a, b) {
      var k := OvertakingHasBlindSend(steps, a, b);
      assert SentBlind(steps, k, a, b);
    }
    if k: nat :| SentBlind(steps, k, a, b) {
      BlindSendOvertakes(steps, k, a, b);
      LogGrows(steps, k + 1);
      OvertakingLasts(Run(steps[..k + 1]).log, Run(steps).log, a, b);
    }
  }

  /** The deduplicated log consists of the smallest visible ids, ascending. */
  ghost predicate InIdOrder(p: Pub) {
    First(p.log) == Fetch(Ids(p.committed), |First(p.log)|)
  }

  /** Each member of `s` is preceded by all smaller elements of `u`. */
  ghost predicate SkipsNone(u: set<nat>, s: seq<nat>) {
    forall a, j: nat :: a in u && j < |s| && a < s[j] ==> a in s[..j]
  }

  /** No element of `u` is overtaken by a larger one. */
  ghost predicate NoneOvertaken(u: set<nat>, log: seq<nat>) {
    forall a: nat, b: nat :: a in u && Overtakes(log, a, b) ==> b <= a
  }

  lemma SkipsNoneIff(u: set<nat>, s: seq<nat>)
    ensures SkipsNone(u, s) <==> NoneOvertaken(u, s)
  {
    if !SkipsNone(u, s) {
      var a, j: nat :| a in u && j < |s| && a < s[j] && a !in s[..j];
      assert OvertakesAt(s, a, s[j], j);
      assert Overtakes(s, a, s[j]);
    }
  }

  /** A sequence is the smallest elements of a set, ascending, exactly when it skips none. */
  lemma FetchIff(u: set<nat>, s: seq<nat>)
    requires forall x :: x in s ==> x in u
    requires forall i, j :: 0 <= i < j < |s| ==> s[i] != s[j]
    ensures s == Fetch(u, |s|) <==> SkipsNone(u, s)
  {
    if s == Fetch(u, |s|) {
      forall a, j: nat | a in u && j < |s| && a < s[j]
        ensures a in s[..j]
      {
        FetchKeepsOrder(u, |s|, a, j);
      }
    }
    if SkipsNone(u, s) {
      SmallestFirst(u, s);
    }
  }

  lemma {:induction false} SmallestFirst(u: set<nat>, s: seq<nat>)
    requires forall x :: x in s ==> x in u
    requires forall i, j :: 0 <= i < j < |s| ==> s[i] != s[j]
    requires SkipsNone(u, s)
    ensures s == Fetch(u, |s|)
  {
    if s != [] {
      assert s[0] in s;
      var m := Min(u);
      assert s[..0] == [];
      assert m == s[0];
      var rest := s[1..];
      forall a, j: nat | a in u - {m} && j < |rest| && a < rest[j]
        ensures a in rest[..j]
      {
        assert a in s[..j + 1];
        var i :| 0 <= i < j + 1 && s[i] == a;
        assert rest[i - 1] == a;
      }
      forall x | x in rest
        ensures x in u - {m}
      {
        var i :| 0 <= i < |rest| && rest[i] == x;
        assert s[i + 1] == x;
      }
      SmallestFirst(u - {m}, rest);
      assert s == [m] + rest;
    }
  }

  lemma {:induction false} FirstIsDistinct(log: seq<nat>)
    ensures forall i, j :: 0 <= i < j < |First(log)| ==> First(log)[i] != First(log)[j]
  {
    if log != [] {
      FirstIsDistinct(log[..|log| - 1]);
      FirstMembers(log[..|log| - 1]);
    }
  }

  /** The deduplicated log shows who overtook whom. */
  lemma {:induction false} FirstKeepsOvertaking(log: seq<nat>, a: nat, b: nat)
    requires a != b
    ensures Overtakes(log, a, b) <==> Overtakes(First(log), a, b)
  {
    if log == [] {
      return;
    }
    var init, last := log[..|log| - 1], log[|log| - 1];
    FirstKeepsOvertaking(init, a, b);
    FirstMembers(init);
    OvertakesSnoc(init, last, a, b);
    OvertakesSnoc(First(init), last, a, b);
    assert log == init + [last];
    if last in init && last == b && a !in init {
      var j :| 0 <= j < |init| && init[j] == b;
      assert OvertakesAt(init, a, b, j);
    }
  }

  lemma OvertakesSnoc(log: seq<nat>, x: nat, a: nat, b: nat)
    ensures Overtakes(log + [x], a, b) <==> Overtakes(log, a, b) || (x == b && a !in log)
  {
    var longer := log + [x];
    if Overtakes(log, a, b) {
      OvertakingLasts(log, longer, a, b);
    }
    assert longer[..|log|] == log;
    if x == b && a !in log {
      assert OvertakesAt(longer, a, b, |log|);
    }
    if j: nat :| OvertakesAt(longer, a, b, j) && j < |log| {
      assert longer[..j] == log[..j];
      assert OvertakesAt(log, a, b, j);
    }
  }

  lemma InIdOrderUnlessOvertaken(p: Pub)
    requires Honest(p)
    ensures InIdOrder(p) <==> NoneOvertaken(Ids(p.committed), First(p.log))
  {
    FirstMembers(p.log);
    FirstIsDistinct(p.log);
    FetchIff(Ids(p.committed), First(p.log));
    SkipsNoneIff(Ids(p.committed), First(p.log));
  }

  /** The exact condition for the whole log: it is in id order and skips no visible row,
      up to repeats, exactly when no drain first publishes a row from a batch that was
      fetched before a smaller row, visible by now, was visible. */
  lemma InIdOrderIff(steps: seq<Step>)
    ensures InIdOrder(Run(steps)) <==>
            forall a: nat, b: nat, k: nat :: a in Run(steps).committed && SentBlind(steps, k, a, b) ==> b <= a
  {
    var p := Run(steps);
    RunHonest(steps);
    InIdOrderUnlessOvertaken(p);
    if InIdOrder(p) {
      forall a: nat, b: nat, k: nat | a in p.committed && SentBlind(steps, k, a, b)
        ensures b <= a
      {
        if a < b {
          OvertakesIff(steps, a, b);
          FirstKeepsOvertaking(p.log, a, b);
        }
      }
    } else {
      var a: nat, b: nat :| a in Ids(p.committed) && Overtakes(First(p.log), a, b) && a < b;
      FirstKeepsOvertaking(p.log, a, b);
      OvertakesIff(steps, a, b);
    }
  }

  /** Why the refinement asks for commits in id order: a row that becomes visible after a
      larger id was drained reaches the broker after it. */
  lemma LateCommitIsPublishedLate(a: nat, b: nat)
    requires a < b
    ensures
      var early := Next(Next(Next(IDLE, Commit(b)), Select(1)), Drain(1, true));
      var late := Next(Next(Next(early, Commit(a)), Select(1)), Drain(1, true));
      First(late.log) == [b, a]
  {
    OneRowTick(IDLE, b);
    OneRowTick(Pub([b], {b}, [b], []), a);
    FirstOfTwo(b, a);
  }

  lemma FirstOfTwo(x: nat, y: nat)
    requires x != y
    ensures First([x] + [y]) == [x, y]
  {
    var none: seq<nat> := [];
    FirstSnoc(none, x);
    assert none + [x] == [x];
    FirstSnoc([x], y);
    assert y !in [x];
  }

  lemma OneRowTick(p: Pub, x: nat)
    requires x !in p.committed && Ids(p.committed) == p.marked && p.inflight == []
    ensures Next(Next(Next(p, Commit(x)), Select(1)), Drain(1, true))
         == Pub(p.committed + [x], p.marked + {x}, p.log + [x], [])
  {
    var q := Next(p, Commit(x));
    assert Ids(q.committed) - q.marked == {x};
    assert Min({x}) == x;
    var r := Next(q, Select(1));
    assert Fetch({x}, 1) == [x] + Fetch({x} - {x}, 0);
    assert r.inflight == [x];
    assert Sent(r, 1) == [x];
    assert Ids([x]) == {x};
  }
}
