/** The deterministic transforms of pipeline/steps.py: loading the
    taxonomy, chunking transcripts, growing the taxonomy with approved
    candidates, suggesting merges, scoring mentions and shaping mention
    records. The language-model and embedding calls around them are
    parameters. */
module Steps {
  import opened Wrappers
  import opened Text
  import opened Utils
  import opened Models
  import opened ChunkIds

  // ---------------------------------------------------------------------
  // Python value helpers.

  /** `d.get(key, default)`. */
  function Lookup(d: map<string, Json>, key: string, default: Json): Json {
    if key in d then d[key] else default
  }

  /** Python's `str(v)`: a string is itself; how other JSON values are
      rendered is left to `render`. */
  function PyStr(v: Json, render: Json -> string): string {
    if v.JStr? then v.s else render(v)
  }

  /** `a or b` over values that may be absent. */
  function Or(a: Option<Json>, b: Option<Json>): Option<Json> {
    if a.Some? && Truthy(a.value) then a else b
  }

  /** A value handed to a pydantic `Optional[str]` field. */
  function OptionalText(v: Option<Json>): (r: Result<Option<string>>)
    ensures r.Success? <==> v.None? || v.value.JNull? || v.value.JStr?
    ensures r.Success? ==> (r.value.None? <==> v.None? || v.value.JNull?)
    ensures r.Success? && r.value.Some? ==> v == Some(JStr(r.value.value))
  {
    if v.None? || v.value.JNull? then Success(None)
    else if v.value.JStr? then Success(Some(v.value.s))
    else Failure("start_time: input should be a valid string")
  }

  /** The slug of a candidate: `slugify(c.topic_id or c.label)`. */
  function CandidateSlug(c: NewTopicCandidate): (r: string)
    ensures IsSlug(r)
    ensures c.topicId.Some? && c.topicId.value != "" ==> r == Slugify(c.topicId.value)
    ensures c.topicId.None? || c.topicId.value == "" ==> r == Slugify(c.labelText)
  {
    Slugify(if c.topicId.Some? && c.topicId.value != "" then c.topicId.value else c.labelText)
  }

  /** The candidates' slugs, in candidate order. */
  function CandidateSlugs(cs: seq<NewTopicCandidate>): (r: seq<string>)
    ensures |r| == |cs|
  {
    if cs == [] then [] else [CandidateSlug(cs[0])] + CandidateSlugs(cs[1..])
  }

  lemma {:induction false} CandidateSlugsAt(cs: seq<NewTopicCandidate>, k: nat)
    requires k < |cs|
    ensures CandidateSlugs(cs)[k] == CandidateSlug(cs[k])
    ensures IsSlug(CandidateSlugs(cs)[k])
  {
    if k > 0 {
      CandidateSlugsAt(cs[1..], k - 1);
    }
  }

  function Ids(items: seq<TaxonomyItem>): (r: seq<string>)
    ensures |r| == |items| && forall k :: 0 <= k < |items| ==> r[k] == items[k].id
  {
    seq(|items|, k requires 0 <= k < |items| => items[k].id)
  }

  /** `a` is `b` with some elements left out. */
  ghost predicate IsSubsequence<T>(a: seq<T>, b: seq<T>)
    decreases |b|
  {
    a == [] || (b != [] && if a[|a| - 1] == b[|b| - 1] then IsSubsequence(a[..|a| - 1], b[..|b| - 1])
                                                     else IsSubsequence(a, b[..|b| - 1]))
  }

  /** Every sequence is a subsequence of itself. */
  lemma {:induction false} SubsequenceSelf<T>(xs: seq<T>)
    ensures IsSubsequence(xs, xs)
  {
    if xs != [] {
      SubsequenceSelf(xs[..|xs| - 1]);
    }
  }

  /** The elements of `xs` that satisfy `p`, in order. */
  function Filter<T(!new)>(xs: seq<T>, p: T -> bool): (r: seq<T>)
    ensures forall x :: x in r <==> x in xs && p(x)
    ensures |r| <= |xs|
  {
    if xs == [] then [] else Filter(xs[..|xs| - 1], p) + (if p(xs[|xs| - 1]) then [xs[|xs| - 1]] else [])
  }

  /** The filter keeps every copy of an element that passes and none of
      one that does not. */
  lemma {:induction false} FilterCounts<T(!new)>(xs: seq<T>, p: T -> bool)
    ensures forall x :: multiset(Filter(xs, p))[x] == if p(x) then multiset(xs)[x] else 0
  {
    if xs != [] {
      FilterCounts(xs[..|xs| - 1], p);
      assert xs == xs[..|xs| - 1] + [xs[|xs| - 1]];
    }
  }

  lemma {:induction false} FilterInOrder<T(!new)>(xs: seq<T>, p: T -> bool)
    ensures IsSubsequence(Filter(xs, p), xs)
  {
    if xs != [] {
      var init := xs[..|xs| - 1];
      var x := xs[|xs| - 1];
      FilterInOrder(init, p);
      var r := Filter(xs, p);
      if p(x) {
        assert r == Filter(init, p) + [x];
        assert r[..|r| - 1] == Filter(init, p);
      } else {
        assert r == Filter(init, p);
        SubsequenceExtend(Filter(init, p), init, x);
        assert init + [x] == xs;
      }
    }
  }

  // ---------------------------------------------------------------------
  // load_taxonomy (pipeline/steps.py:66-70)

  const WrapperKey: string := "taxonomy_json_updated"

  /** The list inside a `taxonomy_json_updated` wrapper, or the document itself. */
  function Unwrapped(raw: Json): Json {
    if raw.JObj? && WrapperKey in raw.fields then raw.fields[WrapperKey] else raw
  }

  /** `[TaxonomyItem(**t) for t in raw]` after unwrapping one level;
      `floatOf` reads a numeric string given as a score. */
  function LoadTaxonomy(raw: Json, floatOf: string -> Option<real>): (r: Result<seq<TaxonomyItem>>)
    ensures var v := Unwrapped(raw);
            v.JArr? ==> (r.Success? <==> forall k :: 0 <= k < |v.items| ==>
                                          v.items[k].JObj? && ParseTaxonomyItem(v.items[k].fields, floatOf).Success?)
    ensures var v := Unwrapped(raw);
            v.JArr? && r.Success? ==>
              |r.value| == |v.items| &&
              forall k :: 0 <= k < |v.items| ==> ParseTaxonomyItem(v.items[k].fields, floatOf) == Success(r.value[k])
    ensures var v := Unwrapped(raw);
            !v.JArr? ==> (r.Success? <==> v == JObj(map[]) || v == JStr("")) && (r.Success? ==> r.value == [])
  {
    var ds := MappingElements(Unwrapped(raw));
    if ds.Failure? then Failure(ds.error)
    else ParseAll(ds.value, (d: map<string, Json>) => ParseTaxonomyItem(d, floatOf))
  }

  /** A wrapped list and the bare list load the same items, whatever else
      the wrapper holds. */
  lemma LoadTaxonomyWrapped(items: seq<Json>, others: map<string, Json>, floatOf: string -> Option<real>)
    ensures LoadTaxonomy(JObj(others[WrapperKey := JArr(items)]), floatOf) == LoadTaxonomy(JArr(items), floatOf)
  {
  }

  // ---------------------------------------------------------------------
  // naive_chunks (pipeline/steps.py:73-112)

  const UnknownSpeaker: string := "unknown"
  const MaxChunkText: nat := 100000

  /** `s[:n]`. */
  function PrefixOf(s: string, n: nat): (r: string)
    ensures |r| <= n && |r| <= |s| && r == s[..|r|]
    ensures |s| <= n ==> r == s
  {
    if |s| <= n then s else s[..n]
  }

  /** The chunk made from the `i`-th element (1-based) of a list transcript. */
  function RowChunk(i: nat, row: Json, render: Json -> string): (r: Result<Chunk>)
    ensures r.Success? ==> r.value.chunkId == ChunkId(i)
  {
    if row.JObj? then
      var d := row.fields;
      var speaker := Lookup(d, "speaker", JStr(UnknownSpeaker));
      var start := OptionalText(Get(d, "start_time"));
      if !speaker.JStr? then Failure("speaker: input should be a valid string")
      else if start.Failure? then Failure(start.error)
      else Success(Chunk(ChunkId(i), speaker.s, start.value, Strip(PrefixOf(PyStr(Lookup(d, "text", JStr("")), render), MaxChunkText))))
    else
      Success(Chunk(ChunkId(i), UnknownSpeaker, None, Strip(PyStr(row, render))))
  }

  /** What each element of a list transcript becomes: an element that is
      not a dict is plain text with speaker "unknown" and no start time; a
      dict must give a string speaker (default "unknown") and a string or
      null start time, and its text is cut to 100000 characters before it
      is stripped. */
  lemma RowChunkFields(i: nat, row: Json, render: Json -> string)
    ensures var r := RowChunk(i, row, render);
            !row.JObj? ==> r == Success(Chunk(ChunkId(i), UnknownSpeaker, None, Strip(PyStr(row, render))))
    ensures var r := RowChunk(i, row, render);
            row.JObj? ==>
              (r.Success? <==> ("speaker" !in row.fields || row.fields["speaker"].JStr?) &&
                               OptionalText(Get(row.fields, "start_time")).Success?)
    ensures var r := RowChunk(i, row, render);
            row.JObj? && r.Success? ==>
              && r.value.text == Strip(PrefixOf(PyStr(Lookup(row.fields, "text", JStr("")), render), MaxChunkText))
              && |r.value.text| <= MaxChunkText
              && ("speaker" !in row.fields ==> r.value.speaker == UnknownSpeaker)
              && ("speaker" in row.fields ==> row.fields["speaker"] == JStr(r.value.speaker))
              && Success(r.value.startTime) == OptionalText(Get(row.fields, "start_time"))
  {
    if row.JObj? {
      var t := PrefixOf(PyStr(Lookup(row.fields, "text", JStr("")), render), MaxChunkText);
      DropLeadingSplit(t, IsSpace);
    }
  }

  /** The chunks of rows numbered from 1 carry the ids of those numbers. */
  lemma RowChunkIds(rows: seq<Json>, out: seq<Chunk>, render: Json -> string)
    requires |out| == |rows|
    requires forall k :: 0 <= k < |rows| ==> RowChunk(k + 1, rows[k], render) == Success(out[k])
    ensures forall k :: 0 <= k < |out| ==> out[k].chunkId == ChunkId(k + 1) && |out[k].chunkId| == 8
  {
    forall k | 0 <= k < |out| ensures out[k].chunkId == ChunkId(k + 1) {
      assert RowChunk(k + 1, rows[k], render).value == out[k];
    }
  }

  /** Rows numbered from 1 up to 2^32 - 1 give pairwise distinct ids. */
  lemma ChunkIdsDistinct(out: seq<Chunk>)
    requires |out| < 0x1_0000_0000
    requires forall k :: 0 <= k < |out| ==> out[k].chunkId == ChunkId(k + 1)
    ensures forall a, b :: 0 <= a < b < |out| ==> out[a].chunkId != out[b].chunkId
  {
    forall a, b | 0 <= a < b < |out|
      ensures out[a].chunkId != out[b].chunkId
    {
      var x, y := out[a].chunkId, out[b].chunkId;
      ChunkIdRoundTrip(a + 1);
      ChunkIdRoundTrip(b + 1);
      assert HexValue(x) != HexValue(y);
    }
  }

  /** `meeting.get("transcript", "")`. */
  function Transcript(meeting: map<string, Json>): Json {
    Lookup(meeting, "transcript", JStr(""))
  }

  /** Chunks of a meeting: a string transcript is one chunk (or none when
      it is blank), a list gives one chunk per element in order, any other
      shape gives none. Building a `Chunk` rejects a speaker or start time
      that is not a string. */
  method NaiveChunks(meeting: map<string, Json>, render: Json -> string) returns (r: Result<seq<Chunk>>)
    ensures var tr := Transcript(meeting);
            tr.JStr? ==>
              if Strip(tr.s) == [] then r == Success([])
              else (r.Success? <==> OptionalText(Get(meeting, "start_time")).Success?) &&
                   (r.Success? ==> r.value == [Chunk("00000001", UnknownSpeaker,
                                                     OptionalText(Get(meeting, "start_time")).value, Strip(tr.s))])
    ensures var tr := Transcript(meeting);
            tr.JArr? ==> (r.Success? <==> forall k :: 0 <= k < |tr.items| ==> RowChunk(k + 1, tr.items[k], render).Success?)
    ensures var tr := Transcript(meeting);
            tr.JArr? && r.Success? ==>
              |r.value| == |tr.items| &&
              forall k :: 0 <= k < |tr.items| ==> RowChunk(k + 1, tr.items[k], render) == Success(r.value[k])
    ensures var tr := Transcript(meeting);
            !tr.JStr? && !tr.JArr? ==> r == Success([])
    ensures r.Success? ==> forall k :: 0 <= k < |r.value| ==> |r.value[k].chunkId| == 8
    ensures r.Success? && |r.value| < 0x1_0000_0000 ==>
              forall a, b :: 0 <= a < b < |r.value| ==> r.value[a].chunkId != r.value[b].chunkId
  {
    var tr := Transcript(meeting);
    if tr.JStr? {
      var text := Strip(tr.s);
      if text == [] {
        return Success([]);
      }
      var start := OptionalText(Get(meeting, "start_time"));
      if start.Failure? {
        return Failure(start.error);
      }
      FirstChunkId();
      return Success([Chunk(ChunkId(1), UnknownSpeaker, start.value, text)]);
    }
    if !tr.JArr? {
      return Success([]);
    }
    r := ListChunks(tr.items, render);
  }

  /** The list-transcript branch of naive_chunks: element `k` becomes
      chunk `k + 1`, and the first element that cannot be a chunk fails
      the whole list. */
  method ListChunks(rows: seq<Json>, render: Json -> string) returns (r: Result<seq<Chunk>>)
    ensures r.Success? <==> forall k :: 0 <= k < |rows| ==> RowChunk(k + 1, rows[k], render).Success?
    ensures r.Success? ==>
              |r.value| == |rows| &&
              forall k :: 0 <= k < |rows| ==> RowChunk(k + 1, rows[k], render) == Success(r.value[k])
    ensures r.Success? ==> forall k :: 0 <= k < |r.value| ==> |r.value[k].chunkId| == 8
    ensures r.Success? && |r.value| < 0x1_0000_0000 ==>
              forall a, b :: 0 <= a < b < |r.value| ==> r.value[a].chunkId != r.value[b].chunkId
  {
    var chunkOf := ChunkOfRow(render);
    r := NumberedRows(rows, chunkOf);
    forall k | 0 <= k < |rows| ensures chunkOf(k + 1, rows[k]) == RowChunk(k + 1, rows[k], render) { }
    if r.Success? {
      RowChunkIds(rows, r.value, render);
      if |r.value| < 0x1_0000_0000 {
        ChunkIdsDistinct(r.value);
      }
    }
  }

  /** `Chunk(chunk_id=f"{i:08x}", ...)` for row number `i`. */
  function ChunkOfRow(render: Json -> string): (nat, Json) -> Result<Chunk> {
    (i: nat, row: Json) => RowChunk(i, row, render)
  }

  /** The loop over the rows of a list transcript: row `k` is turned into
      an item by `itemOf(k + 1, rows[k])`, and the first row that fails
      stops the loop with its error. */
  method NumberedRows<T>(rows: seq<Json>, itemOf: (nat, Json) -> Result<T>) returns (r: Result<seq<T>>)
    ensures r.Success? <==> forall k :: 0 <= k < |rows| ==> itemOf(k + 1, rows[k]).Success?
    ensures r.Success? ==>
              |r.value| == |rows| &&
              forall k :: 0 <= k < |rows| ==> itemOf(k + 1, rows[k]) == Success(r.value[k])
    ensures r.Failure? ==> exists k :: 0 <= k < |rows| && itemOf(k + 1, rows[k]) == Failure(r.error)
  {
    var out: seq<T> := [];
    var i := 0;
    while i < |rows|
      invariant 0 <= i <= |rows|
      invariant |out| == i
      invariant forall k :: 0 <= k < i ==> itemOf(k + 1, rows[k]) == Success(out[k])
    {
      var c := itemOf(i + 1, rows[i]);
      if c.Failure? {
        return Failure(c.error);
      }
      out := out + [c.value];
      i := i + 1;
    }
    return Success(out);
  }

  /** Chunk text carries no surrounding whitespace. */
  lemma RowChunkTrimmed(i: nat, row: Json, render: Json -> string)
    requires RowChunk(i, row, render).Success?
    ensures var t := RowChunk(i, row, render).value.text;
            t == [] || (!IsSpace(t[0]) && !IsSpace(t[|t| - 1]))
  {
    if row.JObj? {
      StripTrims(PrefixOf(PyStr(Lookup(row.fields, "text", JStr("")), render), MaxChunkText));
    } else {
      StripTrims(PyStr(row, render));
    }
  }

  // ---------------------------------------------------------------------
  // _transcript_to_text (pipeline/steps.py:117-130)

  /** The text a list-transcript element contributes. */
  function RowText(row: Json, render: Json -> string): string {
    if row.JObj? then PyStr(Lookup(row.fields, "text", JStr("")), render) else PyStr(row, render)
  }

  /** The non-empty strings of `parts`, in order. */
  function NonEmpty(parts: seq<string>): (r: seq<string>)
    ensures forall k :: 0 <= k < |r| ==> r[k] != "" && r[k] in parts
    ensures forall s :: multiset(r)[s] == if s != "" then multiset(parts)[s] else 0
    ensures r == [] <==> forall k :: 0 <= k < |parts| ==> parts[k] == ""
  {
    var r := Filter(parts, IsText);
    FilterCounts(parts, IsText);
    assert forall k :: 0 <= k < |parts| && parts[k] != "" ==> parts[k] in r;
    assert forall k :: 0 <= k < |r| ==> r[k] in r && IsText(r[k]);
    r
  }

  predicate IsText(s: string) { s != "" }

  /** The non-empty parts keep their order. */
  lemma NonEmptyInOrder(parts: seq<string>)
    ensures IsSubsequence(NonEmpty(parts), parts)
  {
    FilterInOrder(parts, IsText);
  }

  /** The transcript as one text: a string is returned as it is, a list
      is joined line by line over its non-empty parts, any other shape is
      the empty text. */
  method TranscriptToText(meeting: map<string, Json>, render: Json -> string) returns (text: string)
    ensures var tr := Transcript(meeting); tr.JStr? ==> text == tr.s
    ensures var tr := Transcript(meeting);
            tr.JArr? ==> text == Join('\n', NonEmpty(seq(|tr.items|, k requires 0 <= k < |tr.items| => RowText(tr.items[k], render))))
    ensures var tr := Transcript(meeting);
            tr.JArr? ==> (text == "" <==> forall k :: 0 <= k < |tr.items| ==> RowText(tr.items[k], render) == "")
    ensures var tr := Transcript(meeting); !tr.JStr? && !tr.JArr? ==> text == ""
  {
    var tr := Transcript(meeting);
    if tr.JStr? {
      return tr.s;
    }
    if !tr.JArr? {
      return "";
    }
    var rows := tr.items;
    var parts: seq<string> := [];
    var i := 0;
    while i < |rows|
      invariant 0 <= i <= |rows|
      invariant parts == seq(i, k requires 0 <= k < i => RowText(rows[k], render))
    {
      parts := parts + [RowText(rows[i], render)];
      i := i + 1;
    }
    assert forall k :: 0 <= k < |rows| ==> parts[k] == RowText(rows[k], render);
    text := Join('\n', NonEmpty(parts));
    JoinOfNonEmpty('\n', NonEmpty(parts));
  }

  lemma JoinOfNonEmpty(sep: char, parts: seq<string>)
    requires forall k :: 0 <= k < |parts| ==> parts[k] != ""
    ensures Join(sep, parts) == "" <==> parts == []
  {
    if |parts| > 1 {
      assert |Join(sep, parts)| >= |parts[0]|;
    }
  }

  /** When no part holds a line break, the lines of the joined text are
      exactly the non-empty parts. */
  lemma TranscriptLines(parts: seq<string>)
    requires forall k :: 0 <= k < |parts| ==> '\n' !in parts[k]
    requires NonEmpty(parts) != []
    ensures Split('\n', Join('\n', NonEmpty(parts))) == NonEmpty(parts)
  {
    SplitJoin('\n', NonEmpty(parts));
  }

  // ---------------------------------------------------------------------
  // update_taxonomy (pipeline/steps.py:164-175)

  const DefaultNewScore: real := 0.5

  /** The ids `update_taxonomy` adds after seeing the first `n` slugs:
      each slug not already present, in order of first appearance. */
  function NewIds(existing: set<string>, slugs: seq<string>, n: nat): seq<string>
    requires n <= |slugs|
  {
    if n == 0 then []
    else
      var prev := NewIds(existing, slugs, n - 1);
      if slugs[n - 1] in existing || slugs[n - 1] in prev then prev else prev + [slugs[n - 1]]
  }

  /** Every added id is a slug from the first `n`, new to `existing`,
      and added once. */
  lemma {:induction false} NewIdsFresh(existing: set<string>, slugs: seq<string>, n: nat)
    requires n <= |slugs|
    ensures forall k :: 0 <= k < |NewIds(existing, slugs, n)| ==> NewIds(existing, slugs, n)[k] !in existing
    ensures forall k :: 0 <= k < |NewIds(existing, slugs, n)| ==>
              exists c :: 0 <= c < n && slugs[c] == NewIds(existing, slugs, n)[k]
    ensures forall a, b :: 0 <= a < b < |NewIds(existing, slugs, n)| ==>
              NewIds(existing, slugs, n)[a] != NewIds(existing, slugs, n)[b]
  {
    if n > 0 {
      NewIdsFresh(existing, slugs, n - 1);
      var prev := NewIds(existing, slugs, n - 1);
      var s := slugs[n - 1];
      var added := NewIds(existing, slugs, n);
      if !(s in existing || s in prev) {
        assert added == prev + [s];
        assert forall k :: 0 <= k < |prev| ==> prev[k] != s;
      } else {
        assert added == prev;
      }
      forall k | 0 <= k < |added| ensures exists c :: 0 <= c < n && slugs[c] == added[k] {
        if k < |prev| {
          var c :| 0 <= c < n - 1 && slugs[c] == prev[k];
          assert slugs[c] == added[k];
        } else {
          assert slugs[n - 1] == added[k];
        }
      }
    } else {
      assert NewIds(existing, slugs, n) == [];
    }
  }

  /** Every one of the first `n` slugs is either in `existing` or added. */
  lemma {:induction false} NewIdsComplete(existing: set<string>, slugs: seq<string>, n: nat)
    requires n <= |slugs|
    ensures forall k :: 0 <= k < n ==> slugs[k] in existing || slugs[k] in NewIds(existing, slugs, n)
  {
    if n > 0 {
      NewIdsComplete(existing, slugs, n - 1);
    }
  }

  /** The added ids keep the order of the slugs. */
  lemma {:induction false} NewIdsInOrder(existing: set<string>, slugs: seq<string>, n: nat)
    requires n <= |slugs|
    ensures IsSubsequence(NewIds(existing, slugs, n), slugs[..n])
  {
    if n > 0 {
      NewIdsInOrder(existing, slugs, n - 1);
      var prev := NewIds(existing, slugs, n - 1);
      var s := slugs[n - 1];
      var init := slugs[..n - 1];
      assert slugs[..n] == init + [s];
      if !(s in existing || s in prev) {
        var added := prev + [s];
        assert added[..|added| - 1] == prev;
      } else {
        SubsequenceExtend(prev, init, s);
      }
    }
  }

  lemma {:induction false} SubsequenceExtend<T>(a: seq<T>, b: seq<T>, x: T)
    requires IsSubsequence(a, b)
    ensures IsSubsequence(a, b + [x])
    decreases |b|, 1
  {
    if a != [] {
      var bx := b + [x];
      assert bx[..|bx| - 1] == b;
      if a[|a| - 1] == x {
        // Matching `x` against the end of `a` needs `a` without its end
        // to embed in `b`, which follows from `a` embedding in `b`.
        SubsequenceDropLast(a, b);
      }
    }
  }

  lemma {:induction false} SubsequenceDropLast<T>(a: seq<T>, b: seq<T>)
    requires a != [] && IsSubsequence(a, b)
    ensures IsSubsequence(a[..|a| - 1], b)
    decreases |b|, 0
  {
    var b' := b[..|b| - 1];
    if a[|a| - 1] == b[|b| - 1] {
      SubsequenceExtend(a[..|a| - 1], b', b[|b| - 1]);
      assert b' + [b[|b| - 1]] == b;
    } else {
      SubsequenceDropLast(a, b');
      SubsequenceExtend(a[..|a| - 1], b', b[|b| - 1]);
      assert b' + [b[|b| - 1]] == b;
    }
  }

  function NewItems(ids: seq<string>, score: real): (r: seq<TaxonomyItem>)
    ensures |r| == |ids| && forall k :: 0 <= k < |ids| ==> r[k] == TaxonomyItem(ids[k], score)
  {
    seq(|ids|, k requires 0 <= k < |ids| => TaxonomyItem(ids[k], score))
  }

  /** Appends to `base` an item with `defaultScore` for every candidate
      slug not yet present, and reports the slugs it added: ids that are
      slugs, new to the base, without repeats, in candidate order, and
      covering every candidate slug the base lacked. */
  method UpdateTaxonomy(base: seq<TaxonomyItem>, candidates: seq<NewTopicCandidate>, defaultScore: real)
    returns (updated: seq<TaxonomyItem>, added: seq<string>)
    ensures var slugs := CandidateSlugs(candidates);
            added == NewIds(set k | 0 <= k < |base| :: base[k].id, slugs, |slugs|)
    ensures updated == base + NewItems(added, defaultScore)
    ensures forall k :: 0 <= k < |added| ==> IsSlug(added[k])
    ensures forall k, j :: 0 <= k < |added| && 0 <= j < |base| ==> added[k] != base[j].id
    ensures forall a, b :: 0 <= a < b < |added| ==> added[a] != added[b]
    ensures var slugs := CandidateSlugs(candidates);
            forall c :: 0 <= c < |slugs| ==> slugs[c] in added || exists j :: 0 <= j < |base| && base[j].id == slugs[c]
    ensures IsSubsequence(added, CandidateSlugs(candidates))
  {
    var slugs := CandidateSlugs(candidates);
    updated, added := AppendUnseen(base, slugs, defaultScore);
    ghost var baseIds := set k | 0 <= k < |base| :: base[k].id;
    NewIdsFresh(baseIds, slugs, |slugs|);
    NewIdsComplete(baseIds, slugs, |slugs|);
    NewIdsInOrder(baseIds, slugs, |slugs|);
    assert slugs[..|slugs|] == slugs;
    AddedAreSlugs(baseIds, candidates);
  }

  /** Every id update_taxonomy adds is a slug. */
  lemma AddedAreSlugs(existing: set<string>, candidates: seq<NewTopicCandidate>)
    ensures var slugs := CandidateSlugs(candidates);
            var added := NewIds(existing, slugs, |slugs|);
            forall k :: 0 <= k < |added| ==> IsSlug(added[k])
  {
    var slugs := CandidateSlugs(candidates);
    var added := NewIds(existing, slugs, |slugs|);
    NewIdsFresh(existing, slugs, |slugs|);
    forall k | 0 <= k < |added| ensures IsSlug(added[k]) {
      var c :| 0 <= c < |slugs| && slugs[c] == added[k];
      CandidateSlugsAt(candidates, c);
    }
  }

  lemma SsoIssuesIsSlug()
    ensures Slugify("sso-issues") == "sso-issues"
  {
    var slug := "sso-issues";
    assert forall i :: 0 <= i < |slug| ==> IsSlugChar(slug[i]) || slug[i] == '-';
    assert NoDoubleDash(slug) by {
      forall i, j | 0 <= i && j == i + 1 && j < |slug| ensures slug[i] != '-' || slug[j] != '-' {
      }
    }
    SlugifyFixesSlugs(slug);
  }

  /** A slug not yet in the taxonomy is added once. */
  lemma NewIdsSingle(existing: set<string>, slug: string)
    requires slug !in existing
    ensures NewIds(existing, [slug], 1) == [slug]
  {
    assert NewIds(existing, [slug], 0) == [];
  }

  /** One approved candidate whose `topic_id` is already a slug and not
      the id of the one base item is added after that item. */
  lemma {:induction false} OneApprovedAdded(item: TaxonomyItem, c: NewTopicCandidate, score: real)
    requires c.topicId.Some? && Slugify(c.topicId.value) == c.topicId.value && c.topicId.value != ""
    requires c.topicId.value != item.id
    ensures var slugs := CandidateSlugs([c]);
            var added := NewIds(set k | 0 <= k < |[item]| :: [item][k].id, slugs, |slugs|);
            && added == [c.topicId.value]
            && [item] + NewItems(added, score) == [item, TaxonomyItem(c.topicId.value, score)]
  {
    var slug := c.topicId.value;
    assert [c][1..] == [];
    assert CandidateSlugs([c]) == [slug];
    var existing := set k | 0 <= k < |[item]| :: [item][k].id;
    assert slug !in existing;
    NewIdsSingle(existing, slug);
    assert NewItems([slug], score) == [TaxonomyItem(slug, score)];
  }

  /** The approval flow of tests/test_approvals_and_merges.py: with the
      base taxonomy `onboarding` and the approved candidate `sso-issues`,
      `sso-issues` is added after `onboarding` with the default score, and
      nothing else is (in particular no `onboarding-sso`). */
  lemma ApprovalFlowExample(why: string, evidence: string)
    ensures var base := [TaxonomyItem("onboarding", 0.8)];
            var approved := [NewTopicCandidate("SSO Issues", evidence, why, Some("sso-issues"))];
            var slugs := CandidateSlugs(approved);
            var added := NewIds(set k | 0 <= k < |base| :: base[k].id, slugs, |slugs|);
            && added == ["sso-issues"]
            && base + NewItems(added, 0.5) == [TaxonomyItem("onboarding", 0.8), TaxonomyItem("sso-issues", 0.5)]
  {
    SsoIssuesIsSlug();
    assert "sso-issues"[0] != "onboarding"[0];
    OneApprovedAdded(TaxonomyItem("onboarding", 0.8), NewTopicCandidate("SSO Issues", evidence, why, Some("sso-issues")), 0.5);
  }

  /** The loop of update_taxonomy over the candidates' slugs: the set of
      ids seen so far decides whether a slug is appended. */
  method AppendUnseen(base: seq<TaxonomyItem>, slugs: seq<string>, defaultScore: real)
    returns (updated: seq<TaxonomyItem>, added: seq<string>)
    ensures added == NewIds(set k | 0 <= k < |base| :: base[k].id, slugs, |slugs|)
    ensures updated == base + NewItems(added, defaultScore)
  {
    var baseIds := set k | 0 <= k < |base| :: base[k].id;
    var existing := baseIds;
    updated := base;
    added := [];
    var i := 0;
    while i < |slugs|
      invariant 0 <= i <= |slugs|
      invariant added == NewIds(baseIds, slugs, i)
      invariant forall x :: x in existing <==> x in baseIds || x in added
      invariant updated == base + NewItems(added, defaultScore)
    {
      var tid := slugs[i];
      if tid !in existing {
        assert NewItems(added + [tid], defaultScore) == NewItems(added, defaultScore) + [TaxonomyItem(tid, defaultScore)];
        updated := updated + [TaxonomyItem(tid, defaultScore)];
        existing := existing + {tid};
        added := added + [tid];
      }
      i := i + 1;
    }
  }
}
