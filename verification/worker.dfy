/** The outbox table and the publishing worker, updated in place. */
module Worker {
  import opened Publisher
  import opened Pricing

  /** A visible row of outbox_event. */
  datatype OutboxRow = OutboxRow(id: nat, published: bool)

  const BATCH := 200

  /** The primary key. */
  ghost predicate UniqueIds(rows: seq<OutboxRow>) {
    forall i, j :: 0 <= i < j < |rows| ==> rows[i].id != rows[j].id
  }

  /** Row ids in the order in which the rows became visible. */
  ghost function RowIds(rows: seq<OutboxRow>): seq<nat> {
    seq(|rows|, i requires 0 <= i < |rows| => rows[i].id)
  }

  /** Ids of the rows whose published_at is null. */
  ghost function Unpublished(rows: seq<OutboxRow>): set<nat> {
    set i | 0 <= i < |rows| && !rows[i].published :: rows[i].id
  }

  ghost function Marked(rows: seq<OutboxRow>): set<nat> {
    set i | 0 <= i < |rows| && rows[i].published :: rows[i].id
  }

  ghost function Visible(rows: seq<OutboxRow>): set<nat> {
    set i | 0 <= i < |rows| :: rows[i].id
  }

  lemma VisibleIds(rows: seq<OutboxRow>)
    ensures Ids(RowIds(rows)) == Visible(rows)
  {
    forall x
      ensures x in Ids(RowIds(rows)) <==> x in Visible(rows)
    {
      if x in Visible(rows) {
        var i :| 0 <= i < |rows| && rows[i].id == x;
        assert RowIds(rows)[i] == x;
      }
    }
  }

  /** Taking the smallest candidate moves it from the candidates to the batch. */
  lemma FetchStep(u: set<nat>, taken: seq<nat>, x: nat, room: nat)
    requires IsMin(u, x) && room > 0
    ensures taken + Fetch(u, room) == taken + [x] + Fetch(u - {x}, room - 1)
  {
    assert Min(u) == x;
  }

  class OutboxStore {
    var rows: seq<OutboxRow>

    constructor ()
      ensures rows == []
    {
      rows := [];
    }

    /** A row becomes visible, in whatever order ids were drawn; the primary key refuses
        an id twice. */
    method Insert(id: nat)
      requires UniqueIds(rows)
      modifies this
      ensures UniqueIds(rows)
      ensures RowIds(rows) == if id in RowIds(old(rows)) then RowIds(old(rows)) else RowIds(old(rows)) + [id]
      ensures Marked(rows) == Marked(old(rows))
    {
      for i := 0 to |rows|
        invariant rows == old(rows) && forall k :: 0 <= k < i ==> rows[k].id != id
      {
        if rows[i].id == id {
          assert RowIds(rows)[i] == id;
          return;
        }
      }
      var before := rows;
      rows := before + [OutboxRow(id, false)];
      assert forall i :: 0 <= i < |before| ==> rows[i] == before[i];
      forall x
        ensures x in Marked(rows) <==> x in Marked(before)
      {
        if x in Marked(before) {
          var i :| 0 <= i < |before| && before[i].published && before[i].id == x;
          assert rows[i].published && rows[i].id == x;
        }
      }
    }

    /** The smallest unpublished id that is not taken yet. */
    method Smallest(taken: seq<nat>) returns (next: Option<nat>)
      ensures next.None? ==> Unpublished(rows) - Ids(taken) == {}
      ensures next.Some? ==> IsMin(Unpublished(rows) - Ids(taken), next.value)
    {
      next := None;
      for i := 0 to |rows|
        invariant next.None? ==> forall k :: 0 <= k < i && !rows[k].published ==> rows[k].id in taken
        invariant next.Some? ==> next.value in Unpublished(rows) - Ids(taken)
        invariant next.Some? ==>
                    forall k :: 0 <= k < i && !rows[k].published && rows[k].id !in taken ==> next.value <= rows[k].id
      {
        var r := rows[i];
        if !r.published && r.id !in taken && (next.None? || r.id < next.value) {
          assert r.id in Unpublished(rows);
          next := Some(r.id);
        }
      }
    }

    /** The `limit` unpublished rows of smallest id, ascending, however the rows are
        stored. */
    method FetchUnpublished(limit: nat) returns (out: seq<nat>)
      ensures out == Fetch(Unpublished(rows), limit)
    {
      out := [];
      assert Unpublished(rows) - Ids(out) == Unpublished(rows);
      while |out| < limit
        invariant |out| <= limit
        invariant out + Fetch(Unpublished(rows) - Ids(out), limit - |out|) == Fetch(Unpublished(rows), limit)
      {
        var next := Smallest(out);
        if next.None? {
          return;
        }
        FetchStep(Unpublished(rows) - Ids(out), out, next.value, limit - |out|);
        assert Unpublished(rows) - Ids(out + [next.value]) == Unpublished(rows) - Ids(out) - {next.value};
        out := out + [next.value];
      }
    }

    method MarkPublished(ids: seq<nat>)
      modifies this
      ensures RowIds(rows) == RowIds(old(rows))
      ensures Marked(rows) == Marked(old(rows)) + (Ids(ids) * Visible(old(rows)))
    {
      var before := rows;
      rows := seq(|before|, i requires 0 <= i < |before| => OutboxRow(before[i].id, before[i].published || before[i].id in ids));
      assert forall i :: 0 <= i < |rows| ==> rows[i].id == before[i].id;
      forall x
        ensures x in Marked(rows) <==> x in Marked(before) || (x in ids && x in Visible(before))
      {
        if x in Marked(rows) {
          var i :| 0 <= i < |rows| && rows[i].published && rows[i].id == x;
          assert before[i].id == x;
        }
        if x in Marked(before) {
          var i :| 0 <= i < |before| && before[i].published && before[i].id == x;
          assert rows[i].published && rows[i].id == x;
        }
        if x in ids && x in Visible(before) {
          var i :| 0 <= i < |before| && before[i].id == x;
          assert rows[i].published && rows[i].id == x;
        }
      }
    }
  }

  /** What happens between two ticks and in one: rows become visible, or the ticker fires. */
  datatype Beat = Arrive(id: nat) | Fire(fetchOk: bool, accepted: nat, markOk: bool)

  class OutboxPublisher {
    const repo: OutboxStore
    var log: seq<nat>

    constructor (repo: OutboxStore)
      ensures this.repo == repo && log == []
    {
      this.repo, log := repo, [];
    }

    /** What the worker and its table look like as a publisher state with no batch in
        flight. */
    ghost predicate Represents(p: Pub)
      reads this, repo
    {
      && UniqueIds(repo.rows)
      && p.log == log && p.inflight == []
      && p.committed == RowIds(repo.rows) && p.marked == Marked(repo.rows)
    }

    /** One tick. The fetch may fail, the first `accepted` publishes succeed and the next
        one fails, and marking may fail. */
    method Tick(fetchOk: bool, accepted: nat, markOk: bool, ghost p: Pub)
      requires Represents(p)
      modifies this, repo
      ensures Represents(if fetchOk then Next(Next(p, Select(BATCH)), Drain(accepted, markOk)) else p)
    {
      if !fetchOk {
        return;
      }
      UnpublishedIsUnmarked(repo.rows);
      VisibleIds(repo.rows);
      var rows := repo.FetchUnpublished(BATCH);
      FetchMembers(Unpublished(repo.rows), BATCH);
      var published: seq<nat> := [];
      var i := 0;
      while i < |rows|
        invariant 0 <= i <= |rows|
        invariant i <= accepted && published == rows[..i] && log == old(log) + rows[..i]
        invariant repo.rows == old(repo.rows)
      {
        if i == accepted {
          break;
        }
        log := log + [rows[i]];
        published := published + [rows[i]];
        i := i + 1;
      }
      assert published == Sent(Next(p, Select(BATCH)), accepted);
      if markOk {
        assert Ids(published) <= Visible(repo.rows) by {
          assert forall x :: x in published ==> x in rows;
        }
        repo.MarkPublished(published);
        SameIds(old(repo.rows), repo.rows);
      }
    }

    /** The ticker loop: whatever arrives and fails, the worker and its table end in the
        state of the corresponding publisher run, so what is proved of those runs holds of
        this loop. Marked rows were published, and each healthy tick takes 200 rows off
        the backlog, or all of them. */
    method Run(script: seq<Beat>, ghost history: seq<Step>)
      requires Represents(Publisher.Run(history))
      modifies this, repo
      ensures Represents(Publisher.Run(history + StepsOf(script)))
      ensures forall x :: x in Marked(repo.rows) ==> x in log
      ensures (forall b :: b in script ==> Healthy(b)) ==>
                |Unpublished(repo.rows)| == Left(|Unpublished(old(repo.rows))|, 200 * |script|)
    {
      BacklogIsUnpublished(Publisher.Run(history));
      assert history + StepsOf(script[..0]) == history;
      for i := 0 to |script|
        invariant Represents(Publisher.Run(history + StepsOf(script[..i])))
      {
        ghost var steps := history + StepsOf(script[..i]);
        NextBeat(script, i, history);
        match script[i]
        case Arrive(id) => repo.Insert(id);
        case Fire(fetchOk, accepted, markOk) => Tick(fetchOk, accepted, markOk, Publisher.Run(steps));
      }
      assert script[..|script|] == script;
      RunHonest(history + StepsOf(script));
      BacklogIsUnpublished(Publisher.Run(history + StepsOf(script)));
      if forall b :: b in script ==> Healthy(b) {
        ScriptShrinksBacklog(script, history);
      }
    }

    lemma BacklogIsUnpublished(p: Pub)
      requires Represents(p)
      ensures Backlog(p) == Unpublished(repo.rows)
    {
      UnpublishedIsUnmarked(repo.rows);
      VisibleIds(repo.rows);
    }
  }

  /** A tick in which nothing fails. */
  predicate Healthy(b: Beat) {
    b.Fire? && b.fetchOk && b.markOk && b.accepted >= 200
  }

  /** The publisher steps of one beat; a tick whose fetch fails takes none. */
  function BeatSteps(b: Beat): seq<Step> {
    match b
    case Arrive(id) => [Commit(id)]
    case Fire(fetchOk, accepted, markOk) => if fetchOk then [Select(BATCH), Drain(accepted, markOk)] else []
  }

  function StepsOf(script: seq<Beat>): seq<Step> {
    if script == [] then [] else StepsOf(script[..|script| - 1]) + BeatSteps(script[|script| - 1])
  }

  ghost function AfterBeat(p: Pub, b: Beat): Pub {
    match b
    case Arrive(id) => Next(p, Commit(id))
    case Fire(fetchOk, accepted, markOk) => if fetchOk then Next(Next(p, Select(BATCH)), Drain(accepted, markOk)) else p
  }

  lemma NextBeat(script: seq<Beat>, i: nat, history: seq<Step>)
    requires i < |script|
    ensures Publisher.Run(history + StepsOf(script[..i + 1])) == AfterBeat(Publisher.Run(history + StepsOf(script[..i])), script[i])
  {
    var steps, beat := history + StepsOf(script[..i]), script[i];
    assert script[..i + 1][..i] == script[..i];
    assert history + StepsOf(script[..i + 1]) == steps + BeatSteps(beat);
    if beat.Arrive? {
      RunSnoc(steps, Commit(beat.id));
    } else if beat.fetchOk {
      RunSnoc(steps, Select(BATCH));
      RunSnoc(steps + [Select(BATCH)], Drain(beat.accepted, beat.markOk));
      assert steps + [Select(BATCH)] + [Drain(beat.accepted, beat.markOk)] == steps + BeatSteps(beat);
    } else {
      assert steps + BeatSteps(beat) == steps;
    }
  }

  /** A healthy beat takes 200 rows off the backlog, or all of them. */
  lemma BeatShrinksBacklog(p: Pub, b: Beat)
    requires Healthy(b) && Honest(p)
    ensures Honest(AfterBeat(p, b)) && |Backlog(AfterBeat(p, b))| == Left(|Backlog(p)|, 200)
  {
    var q := Next(p, Select(BATCH));
    NextHonest(p, Select(BATCH));
    NextHonest(q, Drain(b.accepted, true));
    FetchTakes(Backlog(p), BATCH);
    assert Sent(q, b.accepted) == q.inflight == Fetch(Backlog(p), BATCH);
    assert Backlog(AfterBeat(p, b)) == Backlog(p) - Ids(q.inflight);
  }

  lemma {:induction false} ScriptShrinksBacklog(script: seq<Beat>, history: seq<Step>)
    requires forall b :: b in script ==> Healthy(b)
    ensures |Backlog(Publisher.Run(history + StepsOf(script)))| == Left(|Backlog(Publisher.Run(history))|, 200 * |script|)
  {
    if script == [] {
      assert history + StepsOf(script) == history;
    } else {
      var n := |script| - 1;
      ScriptShrinksBacklog(script[..n], history);
      NextBeat(script, n, history);
      RunHonest(history + StepsOf(script[..n]));
      BeatShrinksBacklog(Publisher.Run(history + StepsOf(script[..n])), script[n]);
      assert script[..n + 1] == script;
    }
  }

  lemma SameIds(rows: seq<OutboxRow>, rows': seq<OutboxRow>)
    requires UniqueIds(rows) && RowIds(rows) == RowIds(rows')
    ensures UniqueIds(rows')
  {
    assert |RowIds(rows)| == |rows| && |RowIds(rows')| == |rows'|;
    assert forall i :: 0 <= i < |rows| ==> RowIds(rows)[i] == rows[i].id && RowIds(rows')[i] == rows'[i].id;
  }

  lemma UnpublishedIsUnmarked(rows: seq<OutboxRow>)
    requires UniqueIds(rows)
    ensures Unpublished(rows) == Visible(rows) - Marked(rows)
  {
    forall i, j | 0 <= i < |rows| && 0 <= j < |rows| && rows[i].id == rows[j].id
      ensures i == j
    {
      assert !(i < j) && !(j < i);
    }
  }
}
