/** pipeline/db.py over an in-memory store: the Supabase tables become
    sequences of rows in a `Store` object, and each table operation
    becomes a method that changes the tables it names. Ids and
    timestamps the database would generate are parameters. */
module Db {
  import opened Wrappers
  import opened Models
  import opened Ordering
  import opened Steps

  /** Column defaults of the schema: a new topic is active, a new
      candidate pending. */
  const ActiveStatus: string := "active"
  const PendingStatus: string := "pending"
  const ApprovedStatus: string := "approved"
  const RejectedStatus: string := "rejected"
  const MergedStatus: string := "merged"
  const SystemActor: string := "system"
  /** The `decided_at` value the decisions write. */
  const DecidedNow: string := "now()"
  const ParentChild: string := "parent_child"
  /** The keyword arguments of log_event that also become columns. */
  const LinkKeys: set<string> := {"session_id", "topic_id", "candidate_id", "run_id"}

  datatype Topic = Topic(id: string, labelText: string, description: Option<string>, createdBy: string, status: string)

  datatype Alias = Alias(alias: string, topicId: string)

  datatype Relation = Relation(parentId: string, childId: string, relationType: string, rollupWeight: Option<real>)

  datatype Candidate = Candidate(
    candidateId: string,
    sessionId: string,
    topicIdSuggested: Json,
    labelText: Json,
    evidence: Json,
    whyNew: Json,
    status: string,
    mergedIntoTopic: Option<string>,
    approverId: Option<string>,
    decidedAt: Option<string>)

  datatype MentionRow = MentionRow(sessionId: string, chunkId: string, topicId: string, evidence: string)

  /** A scoring run; `runAt` orders runs in time. */
  datatype Run = Run(runId: string, runAt: int)

  datatype ScoreRow = ScoreRow(runId: Option<string>, topicId: string, totalScore: real)

  datatype Event = Event(eventType: string, actor: string, payload: map<string, Json>, links: map<string, Json>)

  // ---------------------------------------------------------------------
  // Tables as sequences.

  /** No two rows share a key. */
  ghost predicate UniqueKeys<T, K>(xs: seq<T>, key: T -> K) {
    forall i, j :: 0 <= i < j < |xs| ==> key(xs[i]) != key(xs[j])
  }

  /** The position of the row with key `k`, if any. */
  function Find<T, K(==)>(xs: seq<T>, key: T -> K, k: K): (r: Option<nat>)
    ensures r.None? <==> forall j :: 0 <= j < |xs| ==> key(xs[j]) != k
    ensures r.Some? ==> r.value < |xs| && key(xs[r.value]) == k
  {
    if xs == [] then None
    else if key(xs[|xs| - 1]) == k then Some(|xs| - 1)
    else Find(xs[..|xs| - 1], key, k)
  }

  /** An upsert of a whole row: it replaces the row with the same key or
      is appended; every other row stays where it was, and keys stay
      unique. */
  function Upsert<T, K(==)>(xs: seq<T>, x: T, key: T -> K): (r: seq<T>)
    ensures |xs| <= |r| <= |xs| + 1
    ensures x in r
    ensures forall j :: 0 <= j < |xs| && key(xs[j]) != key(x) ==> r[j] == xs[j]
    ensures forall j :: 0 <= j < |r| && r[j] != x ==> r[j] in xs
    ensures UniqueKeys(xs, key) ==> UniqueKeys(r, key)
  {
    var at := Find(xs, key, key(x));
    if at.Some? then
      var r := xs[at.value := x];
      assert forall j :: 0 <= j < |xs| ==> key(r[j]) == key(xs[j]);
      r
    else xs + [x]
  }

  // ---------------------------------------------------------------------
  // upsert_topic (pipeline/db.py:28-35)

  function TopicId(t: Topic): string { t.id }

  /** The topics after upserting `id`: the row with that id gets the new
      label, description and creator (a new row is active); the topic
      keeps its place, every other topic is unchanged, and ids stay
      unique. */
  function UpsertTopicRow(ts: seq<Topic>, id: string, newLabel: string, description: Option<string>, createdBy: string)
    : (r: seq<Topic>)
    requires UniqueKeys(ts, TopicId)
    ensures UniqueKeys(r, TopicId)
    ensures exists k :: 0 <= k < |r| && r[k].id == id && r[k].labelText == newLabel &&
                        r[k].description == description && r[k].createdBy == createdBy
    ensures |r| == |ts| <==> exists k :: 0 <= k < |ts| && ts[k].id == id
    ensures |r| == |ts| + 1 <==> forall k :: 0 <= k < |ts| ==> ts[k].id != id
    ensures forall k :: 0 <= k < |ts| && ts[k].id != id ==> r[k] == ts[k]
    ensures forall k :: 0 <= k < |ts| && ts[k].id == id ==> r[k].status == ts[k].status
    ensures |r| == |ts| + 1 ==> r[|ts|] == Topic(id, newLabel, description, createdBy, ActiveStatus)
  {
    var at := Find(ts, TopicId, id);
    if at.Some? then
      var r := ts[at.value := ts[at.value].(labelText := newLabel, description := description, createdBy := createdBy)];
      assert forall j :: 0 <= j < |ts| ==> r[j].id == ts[j].id;
      r
    else
      var r := ts + [Topic(id, newLabel, description, createdBy, ActiveStatus)];
      assert r[|ts|].id == id;
      r
  }

  // ---------------------------------------------------------------------
  // Candidate decisions (pipeline/db.py:89-117)

  /** One row of `update({...}).eq("candidate_id", id)`. */
  function DecideRow(c: Candidate, id: string, status: string, merged: Option<Option<string>>, approver: string)
    : Candidate
  {
    if c.candidateId == id
    then c.(status := status, approverId := Some(approver), decidedAt := Some(DecidedNow),
            mergedIntoTopic := if merged.Some? then merged.value else c.mergedIntoTopic)
    else c
  }

  /** The candidates after a decision on `id`. */
  function Decide(cs: seq<Candidate>, id: string, status: string, merged: Option<Option<string>>, approver: string)
    : (r: seq<Candidate>)
    ensures |r| == |cs|
  {
    if cs == [] then []
    else Decide(cs[..|cs| - 1], id, status, merged, approver) + [DecideRow(cs[|cs| - 1], id, status, merged, approver)]
  }

  /** Every row with the decided id gets the status, the approver and the
      decision time, and its merge target when `merged` gives one, and
      keeps its other columns; no other row changes. */
  lemma {:induction false} DecideFields(cs: seq<Candidate>, id: string, status: string,
                                        merged: Option<Option<string>>, approver: string)
    ensures var r := Decide(cs, id, status, merged, approver);
            && (forall k :: 0 <= k < |cs| && cs[k].candidateId != id ==> r[k] == cs[k])
            && (forall k :: 0 <= k < |cs| && cs[k].candidateId == id ==>
                  && r[k].status == status && r[k].approverId == Some(approver) && r[k].decidedAt == Some(DecidedNow)
                  && r[k].mergedIntoTopic == (if merged.Some? then merged.value else cs[k].mergedIntoTopic)
                  && r[k].(status := cs[k].status, approverId := cs[k].approverId, decidedAt := cs[k].decidedAt,
                           mergedIntoTopic := cs[k].mergedIntoTopic) == cs[k])
  {
    DecideAt(cs, id, status, merged, approver);
  }

  lemma {:induction false} DecideAt(cs: seq<Candidate>, id: string, status: string,
                                    merged: Option<Option<string>>, approver: string)
    ensures forall k :: 0 <= k < |cs| ==>
              Decide(cs, id, status, merged, approver)[k] == DecideRow(cs[k], id, status, merged, approver)
  {
    if cs != [] {
      var init := cs[..|cs| - 1];
      DecideAt(init, id, status, merged, approver);
      var r := Decide(cs, id, status, merged, approver);
      assert forall k :: 0 <= k < |init| ==> r[k] == Decide(init, id, status, merged, approver)[k] && init[k] == cs[k];
    }
  }

  predicate IsPending(c: Candidate) { c.status == PendingStatus }

  predicate IsActive(t: Topic) { t.status == ActiveStatus }

  /** A decision that leaves the pending state takes exactly the decided
      candidate out of the pending list. */
  lemma {:induction false} DecidedLeavesPending(cs: seq<Candidate>, id: string, status: string,
                                                merged: Option<Option<string>>, approver: string)
    requires status != PendingStatus
    ensures Filter(Decide(cs, id, status, merged, approver), IsPending) == Filter(Filter(cs, IsPending), Other(id))
  {
    if cs != [] {
      var init := cs[..|cs| - 1];
      var c := cs[|cs| - 1];
      DecidedLeavesPending(init, id, status, merged, approver);
      var decided := Decide(cs, id, status, merged, approver);
      var d := DecideRow(c, id, status, merged, approver);
      assert decided == Decide(init, id, status, merged, approver) + [d];
      assert Filter(decided, IsPending) ==
             Filter(Decide(init, id, status, merged, approver), IsPending) + (if IsPending(d) then [d] else []);
      var pending := Filter(init, IsPending);
      if IsPending(c) {
        assert Filter(cs, IsPending) == pending + [c];
        assert (pending + [c])[..|pending|] == pending;
      } else {
        assert Filter(cs, IsPending) == pending;
      }
      if c.candidateId == id {
        assert !IsPending(d);
      } else {
        assert d == c;
      }
    }
  }

  /** The candidates other than `id`. */
  function Other(id: string): Candidate -> bool {
    (c: Candidate) => c.candidateId != id
  }

  // ---------------------------------------------------------------------
  // insert_candidates (pipeline/db.py:75-86)

  /** One row of insert_candidates: `topic_id_suggested` is the topic id
      or else the label, `label` and `evidence` are required, `why_new`
      defaults to the empty text; the database adds the id and the
      pending status. */
  function CandidateRow(sessionId: string, c: map<string, Json>, id: string): (r: Result<Candidate>)
    ensures r.Success? <==> "label" in c && "evidence" in c
    ensures r.Success? ==>
              && r.value.sessionId == sessionId && r.value.candidateId == id
              && r.value.labelText == c["label"] && r.value.evidence == c["evidence"]
              && r.value.topicIdSuggested == Or(Get(c, "topic_id"), Get(c, "label")).GetOr(JNull)
              && r.value.whyNew == (if "why_new" in c then c["why_new"] else JStr(""))
              && r.value.status == PendingStatus && r.value.mergedIntoTopic.None?
  {
    var suggested := Or(Get(c, "topic_id"), Get(c, "label")).GetOr(JNull);
    if "label" !in c then Failure("KeyError: 'label'")
    else if "evidence" !in c then Failure("KeyError: 'evidence'")
    else Success(Candidate(id, sessionId, suggested, c["label"], c["evidence"], Lookup(c, "why_new", JStr("")),
                           PendingStatus, None, None, None))
  }

  // ---------------------------------------------------------------------
  // get_mentions (pipeline/db.py:157-165)

  /** The mention rows that match the given filters; an empty or missing
      filter matches every row. */
  predicate Matches(m: MentionRow, sessionId: Option<string>, topicId: Option<string>) {
    && (Given(sessionId) ==> m.sessionId == sessionId.value)
    && (Given(topicId) ==> m.topicId == topicId.value)
  }

  /** `query.eq(column, value)` when the filter value is given; `col`
      reads the column of a row. */
  function ByColumn(ms: seq<MentionRow>, col: MentionRow -> string, v: Option<string>): (r: seq<MentionRow>)
    ensures forall m :: multiset(r)[m] == if Given(v) ==> col(m) == v.value then multiset(ms)[m] else 0
  {
    if Given(v) then
      var p := (m: MentionRow) => col(m) == v.value;
      FilterCounts(ms, p);
      Filter(ms, p)
    else ms
  }

  function SessionColumn(m: MentionRow): string { m.sessionId }

  function TopicColumn(m: MentionRow): string { m.topicId }

  function MentionsMatching(ms: seq<MentionRow>, sessionId: Option<string>, topicId: Option<string>)
    : (r: seq<MentionRow>)
    ensures forall m :: m in r <==> m in ms && Matches(m, sessionId, topicId)
    ensures forall m :: multiset(r)[m] == if Matches(m, sessionId, topicId) then multiset(ms)[m] else 0
  {
    var r := ByColumn(ByColumn(ms, SessionColumn, sessionId), TopicColumn, topicId);
    assert forall m :: m in r <==> m in multiset(r);
    assert forall m :: m in ms <==> m in multiset(ms);
    r
  }

  // ---------------------------------------------------------------------
  // write_topic_scores / get_latest_scores (pipeline/db.py:175-194)

  function ScoreKey(s: ScoreRow): (Option<string>, string) { (s.runId, s.topicId) }

  function TotalScore(s: ScoreRow): real { s.totalScore }

  /** A batch upsert, row by row. */
  function UpsertScores(table: seq<ScoreRow>, rows: seq<ScoreRow>): (r: seq<ScoreRow>)
    ensures UniqueKeys(table, ScoreKey) ==> UniqueKeys(r, ScoreKey)
    decreases |rows|
  {
    if rows == [] then table else UpsertScores(Upsert(table, rows[0], ScoreKey), rows[1..])
  }

  /** When no two written rows share a run and topic, every written row
      is in the table after the upsert. */
  lemma {:induction false} UpsertScoresKeepsRows(table: seq<ScoreRow>, rows: seq<ScoreRow>)
    requires UniqueKeys(rows, ScoreKey)
    ensures forall k :: 0 <= k < |rows| ==> rows[k] in UpsertScores(table, rows)
    decreases |rows|
  {
    if rows != [] {
      var next := Upsert(table, rows[0], ScoreKey);
      UpsertScoresKeepsRows(next, rows[1..]);
      UpsertScoresKeepsEarlier(next, rows[1..], rows[0]);
    }
  }

  lemma {:induction false} UpsertScoresKeepsEarlier(table: seq<ScoreRow>, rows: seq<ScoreRow>, x: ScoreRow)
    requires x in table
    requires forall k :: 0 <= k < |rows| ==> ScoreKey(rows[k]) != ScoreKey(x)
    ensures x in UpsertScores(table, rows)
    decreases |rows|
  {
    if rows != [] {
      var next := Upsert(table, rows[0], ScoreKey);
      var j :| 0 <= j < |table| && table[j] == x;
      assert next[j] == x;
      UpsertScoresKeepsEarlier(next, rows[1..], x);
    }
  }

  /** `row["run_id"] = run_id` for every row. */
  function Stamped(rows: seq<ScoreRow>, runId: string): (r: seq<ScoreRow>)
    ensures |r| == |rows|
    ensures forall k :: 0 <= k < |rows| ==> r[k].runId == Some(runId) && r[k].(runId := rows[k].runId) == rows[k]
  {
    seq(|rows|, k requires 0 <= k < |rows| => rows[k].(runId := Some(runId)))
  }

  /** The rows of run `runId`. */
  function OfRun(runId: string): ScoreRow -> bool {
    (s: ScoreRow) => s.runId == Some(runId)
  }

  /** The most recent run: none when there is no run, otherwise one at
      least as recent as every other. */
  function LatestRun(runs: seq<Run>): (r: Option<Run>)
    ensures r.None? <==> runs == []
    ensures r.Some? ==> r.value in runs && forall k :: 0 <= k < |runs| ==> runs[k].runAt <= r.value.runAt
  {
    if runs == [] then None
    else
      var prev := LatestRun(runs[..|runs| - 1]);
      var last := runs[|runs| - 1];
      assert forall k :: 0 <= k < |runs| - 1 ==> runs[..|runs| - 1][k] == runs[k];
      if prev.None? || last.runAt > prev.value.runAt then Some(last) else prev
  }

  /** The scores of the latest run, highest total first, at most `limit`:
      as many of that run's rows as the limit allows, drawn from them, and
      no row left out ranks above a row returned. */
  function LatestScores(runs: seq<Run>, scores: seq<ScoreRow>, limit: nat): (r: seq<ScoreRow>)
    ensures runs == [] ==> r == []
    ensures |r| <= limit
    ensures Descending(r, TotalScore)
    ensures runs != [] ==> forall s :: s in r ==> s in scores && s.runId == Some(LatestRun(runs).value.runId)
    ensures runs != [] ==>
              var ofRun := Filter(scores, OfRun(LatestRun(runs).value.runId));
              && |r| == (if limit < |ofRun| then limit else |ofRun|)
              && multiset(r) <= multiset(ofRun)
              && forall s, t :: multiset(r)[s] < multiset(ofRun)[s] && t in r ==> s.totalScore <= t.totalScore
  {
    if runs == [] then []
    else
      var runId := LatestRun(runs).value.runId;
      var ofRun := Filter(scores, OfRun(runId));
      var sorted := SortDescending(ofRun, TotalScore);
      TakeOfSorted(sorted, limit);
      assert forall s :: s in sorted ==> s in ofRun by {
        forall s | s in sorted ensures s in ofRun {
          assert s in multiset(sorted);
        }
      }
      Take(sorted, limit)
  }

  /** The first `n` rows of a descending sequence: still descending,
      drawn from it, and every row cut off ranks no higher than a row
      kept. */
  lemma TakeOfSorted(xs: seq<ScoreRow>, n: nat)
    requires Descending(xs, TotalScore)
    ensures Descending(Take(xs, n), TotalScore)
    ensures |Take(xs, n)| <= n
    ensures forall x :: x in Take(xs, n) ==> x in xs
    ensures multiset(Take(xs, n)) <= multiset(xs)
    ensures forall s, t :: multiset(Take(xs, n))[s] < multiset(xs)[s] && t in Take(xs, n) ==> s.totalScore <= t.totalScore
  {
    if n < |xs| {
      var kept := Take(xs, n);
      var cut := xs[n..];
      assert xs == kept + cut;
      assert multiset(xs) == multiset(kept) + multiset(cut);
      forall s, t | multiset(kept)[s] < multiset(xs)[s] && t in kept ensures s.totalScore <= t.totalScore {
        assert s in multiset(cut);
        var i :| 0 <= i < |cut| && cut[i] == s;
        var j :| 0 <= j < |kept| && kept[j] == t;
        assert xs[n + i] == s && xs[j] == t;
      }
    }
  }

  // ---------------------------------------------------------------------
  // log_event (pipeline/db.py:198-206)

  /** The payload holds exactly the keyword arguments that are not None. */
  function EventPayload(kwargs: map<string, Json>): (r: map<string, Json>)
    ensures forall k :: k in r <==> k in kwargs && kwargs[k] != JNull
    ensures forall k :: k in r ==> r[k] == kwargs[k]
  {
    map k | k in kwargs && kwargs[k] != JNull :: kwargs[k]
  }

  /** The foreign-key columns: the keyword arguments named session_id,
      topic_id, candidate_id or run_id, None or not. */
  function EventLinks(kwargs: map<string, Json>): (r: map<string, Json>)
    ensures forall k :: k in r <==> k in kwargs && k in LinkKeys
    ensures forall k :: k in r ==> r[k] == kwargs[k]
  {
    map k | k in kwargs && k in LinkKeys :: kwargs[k]
  }

  // ---------------------------------------------------------------------
  // The store.

  class Store {
    var topics: seq<Topic>
    var aliases: seq<Alias>
    var relations: seq<Relation>
    var candidates: seq<Candidate>
    var mentions: seq<MentionRow>
    var runs: seq<Run>
    var scores: seq<ScoreRow>
    var events: seq<Event>

    /** The primary keys the upserts rely on stay unique. */
    ghost predicate Valid()
      reads this`topics, this`relations, this`scores
    {
      UniqueKeys(topics, TopicId) && UniqueKeys(relations, RelationKey) && UniqueKeys(scores, ScoreKey)
    }

    constructor ()
      ensures Valid()
      ensures topics == [] && aliases == [] && relations == [] && candidates == []
      ensures mentions == [] && runs == [] && scores == [] && events == []
    {
      topics := [];
      aliases := [];
      relations := [];
      candidates := [];
      mentions := [];
      runs := [];
      scores := [];
      events := [];
    }

    method UpsertTopic(id: string, newLabel: string, description: Option<string>, createdBy: string)
      requires Valid()
      modifies this
      ensures Valid()
      ensures topics == UpsertTopicRow(old(topics), id, newLabel, description, createdBy)
      ensures aliases == old(aliases) && relations == old(relations) && candidates == old(candidates)
      ensures mentions == old(mentions) && runs == old(runs) && scores == old(scores) && events == old(events)
    {
      topics := UpsertTopicRow(topics, id, newLabel, description, createdBy);
    }

    method AddAlias(alias: string, topicId: string)
      requires Valid()
      modifies this
      ensures Valid()
      ensures aliases == old(aliases) + [Alias(alias, topicId)]
      ensures topics == old(topics) && relations == old(relations) && candidates == old(candidates)
      ensures mentions == old(mentions) && runs == old(runs) && scores == old(scores) && events == old(events)
    {
      aliases := aliases + [Alias(alias, topicId)];
    }

    method AddParentChild(parentId: string, childId: string, rollupWeight: Option<real>)
      requires Valid()
      modifies this
      ensures Valid()
      ensures relations == Upsert(old(relations), Relation(parentId, childId, ParentChild, rollupWeight), RelationKey)
      ensures topics == old(topics) && aliases == old(aliases) && candidates == old(candidates)
      ensures mentions == old(mentions) && runs == old(runs) && scores == old(scores) && events == old(events)
    {
      relations := Upsert(relations, Relation(parentId, childId, ParentChild, rollupWeight), RelationKey);
    }

    /** Builds every row first, so a candidate without label or evidence
        leaves the table as it was. */
    method InsertCandidates(sessionId: string, cands: seq<map<string, Json>>, ids: seq<string>)
      returns (r: Result<seq<Candidate>>)
      requires Valid()
      requires |ids| == |cands|
      modifies this
      ensures Valid()
      ensures r.Success? <==> forall k :: 0 <= k < |cands| ==> CandidateRow(sessionId, cands[k], ids[k]).Success?
      ensures r.Success? ==>
                && |r.value| == |cands|
                && (forall k :: 0 <= k < |cands| ==> CandidateRow(sessionId, cands[k], ids[k]) == Success(r.value[k]))
                && candidates == old(candidates) + r.value
      ensures r.Failure? ==> candidates == old(candidates)
      ensures topics == old(topics) && aliases == old(aliases) && relations == old(relations)
      ensures mentions == old(mentions) && runs == old(runs) && scores == old(scores) && events == old(events)
    {
      var rows: seq<Candidate> := [];
      var i := 0;
      while i < |cands|
        invariant 0 <= i <= |cands|
        invariant |rows| == i
        invariant forall k :: 0 <= k < i ==> CandidateRow(sessionId, cands[k], ids[k]) == Success(rows[k])
      {
        var row := CandidateRow(sessionId, cands[i], ids[i]);
        if row.Failure? {
          return Failure(row.error);
        }
        rows := rows + [row.value];
        i := i + 1;
      }
      candidates := candidates + rows;
      return Success(rows);
    }

    method ApproveCandidate(candidateId: string, topicId: string, newLabel: string, description: Option<string>,
                            approver: string)
      requires Valid()
      modifies this
      ensures Valid()
      ensures topics == UpsertTopicRow(old(topics), topicId, newLabel, description, approver)
      ensures candidates == Decide(old(candidates), candidateId, ApprovedStatus, Some(None), approver)
      ensures aliases == old(aliases) && relations == old(relations)
      ensures mentions == old(mentions) && runs == old(runs) && scores == old(scores) && events == old(events)
    {
      UpsertTopic(topicId, newLabel, description, approver);
      candidates := Decide(candidates, candidateId, ApprovedStatus, Some(None), approver);
    }

    method RejectCandidate(candidateId: string, approver: string)
      requires Valid()
      modifies this
      ensures Valid()
      ensures candidates == Decide(old(candidates), candidateId, RejectedStatus, None, approver)
      ensures topics == old(topics) && aliases == old(aliases) && relations == old(relations)
      ensures mentions == old(mentions) && runs == old(runs) && scores == old(scores) && events == old(events)
    {
      candidates := Decide(candidates, candidateId, RejectedStatus, None, approver);
    }

    method MergeCandidate(candidateId: string, aliasText: string, intoTopicId: string, approver: string)
      requires Valid()
      modifies this
      ensures Valid()
      ensures aliases == old(aliases) + [Alias(aliasText, intoTopicId)]
      ensures candidates == Decide(old(candidates), candidateId, MergedStatus, Some(Some(intoTopicId)), approver)
      ensures topics == old(topics) && relations == old(relations)
      ensures mentions == old(mentions) && runs == old(runs) && scores == old(scores) && events == old(events)
    {
      AddAlias(aliasText, intoTopicId);
      candidates := Decide(candidates, candidateId, MergedStatus, Some(Some(intoTopicId)), approver);
    }

    /** Exactly the topics whose status is active. */
    function ActiveTopics(): (r: seq<Topic>)
      reads this
      ensures forall t :: t in r <==> t in topics && t.status == ActiveStatus
      ensures forall t :: multiset(r)[t] == if t.status == ActiveStatus then multiset(topics)[t] else 0
      ensures IsSubsequence(r, topics)
    {
      FilterCounts(topics, IsActive);
      FilterInOrder(topics, IsActive);
      Filter(topics, IsActive)
    }

    /** Exactly the candidates whose status is pending. */
    function PendingCandidates(): (r: seq<Candidate>)
      reads this
      ensures forall c :: c in r <==> c in candidates && c.status == PendingStatus
      ensures forall c :: multiset(r)[c] == if c.status == PendingStatus then multiset(candidates)[c] else 0
      ensures IsSubsequence(r, candidates)
    {
      FilterCounts(candidates, IsPending);
      FilterInOrder(candidates, IsPending);
      Filter(candidates, IsPending)
    }

    /** get_mentions: the stored mentions that pass the filters given. */
    function Mentions(sessionId: Option<string>, topicId: Option<string>): (r: seq<MentionRow>)
      reads this
      ensures forall m :: m in r <==> m in mentions && Matches(m, sessionId, topicId)
      ensures forall m :: multiset(r)[m] == if Matches(m, sessionId, topicId) then multiset(mentions)[m] else 0
    {
      MentionsMatching(mentions, sessionId, topicId)
    }

    method InsertMentions(rows: seq<MentionRow>)
      requires Valid()
      modifies this
      ensures Valid()
      ensures mentions == old(mentions) + rows
      ensures topics == old(topics) && aliases == old(aliases) && relations == old(relations)
      ensures candidates == old(candidates) && runs == old(runs) && scores == old(scores) && events == old(events)
    {
      mentions := mentions + rows;
    }

    method StartScoringRun(runId: string, runAt: int)
      requires Valid()
      modifies this
      ensures Valid()
      ensures runs == old(runs) + [Run(runId, runAt)]
      ensures topics == old(topics) && aliases == old(aliases) && relations == old(relations)
      ensures candidates == old(candidates) && mentions == old(mentions) && scores == old(scores) && events == old(events)
    {
      runs := runs + [Run(runId, runAt)];
    }

    /** Stamps `run_id` on the caller's rows in place, then upserts them. */
    method WriteTopicScores(runId: string, rows: array<ScoreRow>)
      requires Valid()
      modifies this, rows
      ensures Valid()
      ensures rows[..] == Stamped(old(rows[..]), runId)
      ensures scores == UpsertScores(old(scores), rows[..])
      ensures topics == old(topics) && aliases == old(aliases) && relations == old(relations)
      ensures candidates == old(candidates) && mentions == old(mentions) && runs == old(runs) && events == old(events)
    {
      var i := 0;
      while i < rows.Length
        modifies rows
        invariant 0 <= i <= rows.Length
        invariant forall k :: 0 <= k < i ==> rows[k] == old(rows[k]).(runId := Some(runId))
        invariant forall k :: i <= k < rows.Length ==> rows[k] == old(rows[k])
      {
        rows[i] := rows[i].(runId := Some(runId));
        i := i + 1;
      }
      scores := UpsertScores(scores, rows[..]);
    }

    /** get_latest_scores: at most `limit` score rows of the latest run,
        highest total first; none when no run was started. */
    function GetLatestScores(limit: nat): (r: seq<ScoreRow>)
      reads this
      ensures runs == [] ==> r == []
      ensures |r| <= limit
      ensures Descending(r, TotalScore)
      ensures runs != [] ==> forall s :: s in r ==> s in scores && s.runId == Some(LatestRun(runs).value.runId)
    {
      LatestScores(runs, scores, limit)
    }

    method LogEvent(eventType: string, actor: string, kwargs: map<string, Json>)
      requires Valid()
      modifies this
      ensures Valid()
      ensures events == old(events) + [Event(eventType, actor, EventPayload(kwargs), EventLinks(kwargs))]
      ensures topics == old(topics) && aliases == old(aliases) && relations == old(relations)
      ensures candidates == old(candidates) && mentions == old(mentions) && runs == old(runs) && scores == old(scores)
    {
      events := events + [Event(eventType, actor, EventPayload(kwargs), EventLinks(kwargs))];
    }
  }

  function RelationKey(r: Relation): (string, string) { (r.parentId, r.childId) }
}
