/** `create_mention_records` (pipeline/steps.py:345-369): mentions are
    joined to the chunks they cite and become rows for the mention
    store. The chunk hash (SHA-256 in the source) and the clock are
    parameters. */
module Records {
  import opened Wrappers
  import opened Models
  import opened Steps

  datatype MentionRecord = MentionRecord(
    meetingId: Json,
    chunkHash: string,
    topicId: string,
    speakerRole: string,
    meetingType: Json,
    relevance: real,
    timestamp: string)

  /** `{"mention_records": records, "num_records": len(records)}`. */
  datatype MentionRecords = MentionRecords(records: seq<MentionRecord>, numRecords: nat)

  const UnknownSpeakerRole: string := "unknown"
  const DefaultMentionRelevance: real := 1.0

  /** `{c.chunk_id: c for c in chunks}` over the first `n` chunks. */
  function IndexUpTo(chunks: seq<Chunk>, n: nat): map<string, Chunk>
    requires n <= |chunks|
  {
    if n == 0 then map[] else IndexUpTo(chunks, n - 1)[chunks[n - 1].chunkId := chunks[n - 1]]
  }

  function ChunkIndex(chunks: seq<Chunk>): map<string, Chunk> {
    IndexUpTo(chunks, |chunks|)
  }

  /** Every id of the chunks is a key, and it maps to the last chunk with
      that id. */
  lemma {:induction false} IndexUpToLastWins(chunks: seq<Chunk>, n: nat)
    requires n <= |chunks|
    ensures forall id :: id in IndexUpTo(chunks, n) <==> exists k :: 0 <= k < n && chunks[k].chunkId == id
    ensures forall id :: id in IndexUpTo(chunks, n) ==>
              exists k :: 0 <= k < n && chunks[k] == IndexUpTo(chunks, n)[id] && chunks[k].chunkId == id &&
                forall j :: k < j < n ==> chunks[j].chunkId != id
  {
    if n > 0 {
      IndexUpToLastWins(chunks, n - 1);
      var prev := IndexUpTo(chunks, n - 1);
      var r := IndexUpTo(chunks, n);
      forall id | id in r
        ensures exists k :: 0 <= k < n && chunks[k] == r[id] && chunks[k].chunkId == id &&
                  forall j :: k < j < n ==> chunks[j].chunkId != id
      {
        if id == chunks[n - 1].chunkId {
          assert chunks[n - 1] == r[id];
        } else {
          var k :| 0 <= k < n - 1 && chunks[k] == prev[id] && chunks[k].chunkId == id &&
                   forall j :: k < j < n - 1 ==> chunks[j].chunkId != id;
          assert chunks[k] == r[id];
        }
      }
      forall id | id !in r ensures forall k :: 0 <= k < n ==> chunks[k].chunkId != id {
        assert id != chunks[n - 1].chunkId;
      }
    } else {
      assert IndexUpTo(chunks, n) == map[];
    }
  }

  lemma ChunkIndexLastWins(chunks: seq<Chunk>)
    ensures forall id :: id in ChunkIndex(chunks) <==> exists k :: 0 <= k < |chunks| && chunks[k].chunkId == id
    ensures forall id :: id in ChunkIndex(chunks) ==>
              exists k :: 0 <= k < |chunks| && chunks[k] == ChunkIndex(chunks)[id] && chunks[k].chunkId == id &&
                forall j :: k < j < |chunks| ==> chunks[j].chunkId != id
  {
    IndexUpToLastWins(chunks, |chunks|);
  }

  /** The first `n` mentions whose chunk is in `index`, in order. */
  function Joinable(ms: seq<Mention>, index: map<string, Chunk>, n: nat): (r: seq<Mention>)
    requires n <= |ms|
    ensures forall k :: 0 <= k < |r| ==> r[k].chunkId in index
  {
    if n == 0 then []
    else if ms[n - 1].chunkId in index then Joinable(ms, index, n - 1) + [ms[n - 1]]
    else Joinable(ms, index, n - 1)
  }

  /** The joinable mentions are exactly those whose chunk is in `index`,
      each as often as it occurs, kept in mention order. */
  lemma JoinableExactly(ms: seq<Mention>, index: map<string, Chunk>, n: nat)
    requires n <= |ms|
    ensures forall k :: 0 <= k < |Joinable(ms, index, n)| ==> Joinable(ms, index, n)[k] in ms[..n]
    ensures forall k :: 0 <= k < n && ms[k].chunkId in index ==> ms[k] in Joinable(ms, index, n)
    ensures IsSubsequence(Joinable(ms, index, n), ms[..n])
    ensures forall m :: multiset(Joinable(ms, index, n))[m] == if m.chunkId in index then multiset(ms[..n])[m] else 0
  {
    JoinableInOrder(ms, index, n);
    JoinableCounts(ms, index, n);
  }

  /** The joinable mentions are drawn from the mentions, include every
      mention whose chunk exists, and keep mention order. */
  lemma {:induction false} JoinableInOrder(ms: seq<Mention>, index: map<string, Chunk>, n: nat)
    requires n <= |ms|
    ensures forall k :: 0 <= k < |Joinable(ms, index, n)| ==> Joinable(ms, index, n)[k] in ms[..n]
    ensures forall k :: 0 <= k < n && ms[k].chunkId in index ==> ms[k] in Joinable(ms, index, n)
    ensures IsSubsequence(Joinable(ms, index, n), ms[..n])
  {
    if n > 0 {
      JoinableInOrder(ms, index, n - 1);
      var prev := Joinable(ms, index, n - 1);
      var r := Joinable(ms, index, n);
      assert ms[..n] == ms[..n - 1] + [ms[n - 1]];
      assert ms[..n][..n - 1] == ms[..n - 1];
      if ms[n - 1].chunkId in index {
        assert r[..|r| - 1] == prev;
      } else {
        SubsequenceExtend(prev, ms[..n - 1], ms[n - 1]);
      }
    } else {
      assert Joinable(ms, index, n) == [];
    }
  }

  lemma {:induction false} JoinableCounts(ms: seq<Mention>, index: map<string, Chunk>, n: nat)
    requires n <= |ms|
    ensures forall m :: multiset(Joinable(ms, index, n))[m] == if m.chunkId in index then multiset(ms[..n])[m] else 0
  {
    if n > 0 {
      JoinableCounts(ms, index, n - 1);
      assert ms[..n] == ms[..n - 1] + [ms[n - 1]];
    }
  }

  /** The record of mention `m` joined to chunk `ch`. */
  function RecordFor(meetingId: Json, meetingType: Json, ch: Chunk, m: Mention,
                     hash: string -> string, nowIso: string): MentionRecord {
    MentionRecord(
      meetingId,
      hash(ch.text),
      if m.topicId.Some? && m.topicId.value != "" then m.topicId.value else m.topicLabel,
      if ch.speaker != "" then ch.speaker else UnknownSpeakerRole,
      meetingType,
      m.relevance.GetOr(DefaultMentionRelevance),
      nowIso)
  }

  /** The records of the given joinable mentions. */
  function RecordsOf(meetingId: Json, meetingType: Json, index: map<string, Chunk>, joined: seq<Mention>,
                     hash: string -> string, nowIso: string): (r: seq<MentionRecord>)
    requires forall k :: 0 <= k < |joined| ==> joined[k].chunkId in index
    ensures |r| == |joined|
    ensures forall k :: 0 <= k < |joined| ==>
              r[k] == RecordFor(meetingId, meetingType, index[joined[k].chunkId], joined[k], hash, nowIso)
  {
    seq(|joined|, k requires 0 <= k < |joined| =>
      RecordFor(meetingId, meetingType, index[joined[k].chunkId], joined[k], hash, nowIso))
  }

  /** Record `k` comes from the `k`-th joinable mention, which is one of
      the mentions, joined to the last chunk with the mention's chunk id:
      it hashes that chunk's text and takes its speaker ("unknown" when
      empty). */
  lemma RecordsJoinLastChunk(meetingId: Json, meetingType: Json, chunks: seq<Chunk>, mentions: seq<Mention>,
                             hash: string -> string, nowIso: string)
    ensures var index := ChunkIndex(chunks);
            var joined := Joinable(mentions, index, |mentions|);
            var recs := RecordsOf(meetingId, meetingType, index, joined, hash, nowIso);
            forall k :: 0 <= k < |recs| ==>
              && joined[k] in mentions
              && exists c :: 0 <= c < |chunks| && chunks[c].chunkId == joined[k].chunkId
                   && (forall j :: c < j < |chunks| ==> chunks[j].chunkId != joined[k].chunkId)
                   && recs[k].chunkHash == hash(chunks[c].text)
                   && recs[k].speakerRole == (if chunks[c].speaker != "" then chunks[c].speaker else UnknownSpeakerRole)
  {
    var index := ChunkIndex(chunks);
    var joined := Joinable(mentions, index, |mentions|);
    var recs := RecordsOf(meetingId, meetingType, index, joined, hash, nowIso);
    ChunkIndexLastWins(chunks);
    JoinableExactly(mentions, index, |mentions|);
    assert mentions[..|mentions|] == mentions;
    forall k | 0 <= k < |recs|
      ensures exists c :: 0 <= c < |chunks| && chunks[c].chunkId == joined[k].chunkId
                && (forall j :: c < j < |chunks| ==> chunks[j].chunkId != joined[k].chunkId)
                && recs[k].chunkHash == hash(chunks[c].text)
                && recs[k].speakerRole == (if chunks[c].speaker != "" then chunks[c].speaker else UnknownSpeakerRole)
    {
      var id := joined[k].chunkId;
      var c :| 0 <= c < |chunks| && chunks[c] == index[id] && chunks[c].chunkId == id &&
               forall j :: c < j < |chunks| ==> chunks[j].chunkId != id;
      assert recs[k] == RecordFor(meetingId, meetingType, chunks[c], joined[k], hash, nowIso);
    }
  }

  /** The other fields of record `k`: the meeting's id and type, the
      mention's `topic_id` or else its label, its relevance or else 1.0,
      and the one timestamp of the call. */
  lemma RecordsFallbacks(meetingId: Json, meetingType: Json, index: map<string, Chunk>, mentions: seq<Mention>,
                         hash: string -> string, nowIso: string)
    ensures var joined := Joinable(mentions, index, |mentions|);
            var recs := RecordsOf(meetingId, meetingType, index, joined, hash, nowIso);
            forall k :: 0 <= k < |recs| ==>
              && recs[k].meetingId == meetingId
              && recs[k].meetingType == meetingType
              && (joined[k].topicId.Some? && joined[k].topicId.value != "" ==> recs[k].topicId == joined[k].topicId.value)
              && (joined[k].topicId.None? || joined[k].topicId.value == "" ==> recs[k].topicId == joined[k].topicLabel)
              && (joined[k].relevance.Some? ==> recs[k].relevance == joined[k].relevance.value)
              && (joined[k].relevance.None? ==> recs[k].relevance == DefaultMentionRelevance)
              && recs[k].speakerRole != ""
              && recs[k].timestamp == nowIso
  {
  }

  /** create_mention_records: fails when the meeting has no `meeting_id`;
      otherwise the records of the joinable mentions, in mention order,
      and their count. */
  method CreateMentionRecords(meeting: map<string, Json>, chunks: seq<Chunk>, mentions: seq<Mention>,
                              hash: string -> string, nowIso: string) returns (r: Result<MentionRecords>)
    ensures r.Success? <==> "meeting_id" in meeting
    ensures r.Success? ==>
              && r.value.numRecords == |r.value.records|
              && r.value.records == RecordsOf(meeting["meeting_id"], Lookup(meeting, "meeting_type", JStr("")),
                                              ChunkIndex(chunks), Joinable(mentions, ChunkIndex(chunks), |mentions|),
                                              hash, nowIso)
  {
    if "meeting_id" !in meeting {
      return Failure("KeyError: 'meeting_id'");
    }
    var meetingId := meeting["meeting_id"];
    var meetingType := Lookup(meeting, "meeting_type", JStr(""));
    var chunkMap := ChunkIndex(chunks);
    var records := JoinMentions(meetingId, meetingType, chunkMap, mentions, hash, nowIso);
    return Success(MentionRecords(records, |records|));
  }

  /** The loop of create_mention_records: a mention whose chunk is missing
      is skipped, any other is appended as a record. */
  method JoinMentions(meetingId: Json, meetingType: Json, chunkMap: map<string, Chunk>, mentions: seq<Mention>,
                      hash: string -> string, nowIso: string) returns (records: seq<MentionRecord>)
    ensures records == RecordsOf(meetingId, meetingType, chunkMap, Joinable(mentions, chunkMap, |mentions|), hash, nowIso)
  {
    records := [];
    var i := 0;
    while i < |mentions|
      invariant 0 <= i <= |mentions|
      invariant records == RecordsOf(meetingId, meetingType, chunkMap, Joinable(mentions, chunkMap, i), hash, nowIso)
    {
      var m := mentions[i];
      if m.chunkId in chunkMap {
        var ch := chunkMap[m.chunkId];
        records := records + [MentionRecord(
          meetingId,
          hash(ch.text),
          if m.topicId.Some? && m.topicId.value != "" then m.topicId.value else m.topicLabel,
          if ch.speaker != "" then ch.speaker else UnknownSpeakerRole,
          meetingType,
          if m.relevance.Some? then m.relevance.value else DefaultMentionRelevance,
          nowIso)];
      }
      i := i + 1;
    }
  }
}
