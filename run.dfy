/** The decisions of the command-line driver run.py: which taxonomy
    file chunk-tag reads, which candidates update-taxonomy uses, and how
    score-topics gathers mentions and writes its scores. Files are
    given by their parsed contents (None for a file that is missing or
    unreadable) and existence checks by a predicate. */
module Cli {
  import opened Wrappers
  import opened Utils
  import opened Models
  import opened Ordering
  import opened Steps
  import opened Scoring

  // ---------------------------------------------------------------------
  // cmd_chunk_tag: the taxonomy path (run.py:25-38)

  const EffectiveTaxonomyFile: string := "effective_taxonomy.json"
  const UpdatedTaxonomyFile: string := "taxonomy_json_updated.json"
  const BaseTaxonomyPath: string := "data/base_taxonomy.json"

  /** `Path(out) / name`, or `Path(".") / name` without `--out`. */
  function InRunDir(out: Option<string>, name: string): string {
    if Given(out) then out.value + "/" + name else name
  }

  /** The first of `paths` that exists (as a file or a directory), or
      `fallback` when none does. */
  function FirstExisting(paths: seq<string>, pathExists: string -> bool, fallback: string): (r: string)
    ensures (forall k :: 0 <= k < |paths| ==> !pathExists(paths[k])) ==> r == fallback
    ensures (exists k :: 0 <= k < |paths| && pathExists(paths[k])) ==>
              exists k :: 0 <= k < |paths| && pathExists(paths[k]) && r == paths[k] &&
                forall j :: 0 <= j < k ==> !pathExists(paths[j])
  {
    if paths == [] then fallback
    else if pathExists(paths[0]) then paths[0]
    else
      var r := FirstExisting(paths[1..], pathExists, fallback);
      assert forall k :: 1 <= k < |paths| ==> paths[1..][k - 1] == paths[k];
      r
  }

  /** A `--taxonomy` that is given is used as it is; otherwise the run
      directory's effective taxonomy, then its updated taxonomy, then the
      base taxonomy, whichever exists first. */
  function TaxonomyPath(given: Option<string>, out: Option<string>, pathExists: string -> bool): (r: string)
    ensures Given(given) ==> r == given.value
    ensures !Given(given) ==>
              r == FirstExisting([InRunDir(out, EffectiveTaxonomyFile), InRunDir(out, UpdatedTaxonomyFile)],
                                 pathExists, BaseTaxonomyPath)
  {
    var eff := InRunDir(out, EffectiveTaxonomyFile);
    var upd := InRunDir(out, UpdatedTaxonomyFile);
    if Given(given) then given.value
    else if pathExists(eff) then eff
    else if pathExists(upd) then upd
    else BaseTaxonomyPath
  }

  // ---------------------------------------------------------------------
  // cmd_update_taxonomy: the candidate list (run.py:59-72)

  const CandidatesUsage: string := "pass --candidates <path to new_topics.json>"
  const NewTopicsKey: string := "new_topics"

  predicate EndsWith(s: string, suffix: string) {
    |suffix| <= |s| && s[|s| - |suffix|..] == suffix
  }

  /** `p` occurs in `s` at position `i`. */
  ghost predicate OccursAt(s: string, p: string, i: nat) {
    i + |p| <= |s| && s[i..i + |p|] == p
  }

  /** `p in s` on texts: `p` occurs in `s`. */
  function Contains(s: string, p: string): (r: bool)
    ensures r <==> exists i: nat :: OccursAt(s, p, i)
  {
    if |s| < |p| then false
    else if s[..|p|] == p then
      assert OccursAt(s, p, 0);
      true
    else
      var r := Contains(s[1..], p);
      assert forall i: nat :: OccursAt(s, p, i) ==> i > 0 && OccursAt(s[1..], p, i - 1);
      assert forall i: nat :: OccursAt(s[1..], p, i) ==> OccursAt(s, p, i + 1) by {
        forall i: nat | OccursAt(s[1..], p, i) ensures OccursAt(s, p, i + 1) {
          assert s[1..][i..i + |p|] == s[i + 1..i + 1 + |p|];
        }
      }
      r
  }

  /** `doc["new_topics"] if "new_topics" in doc else doc`: the key of an
      object, an element of a list, a substring of a text; indexing a
      list or text by a text, and `in` on a number, a boolean or None,
      raise. */
  function ListedCandidates(doc: Json): (r: Result<Json>)
    ensures doc.JObj? ==> r == Success(if NewTopicsKey in doc.fields then doc.fields[NewTopicsKey] else doc)
    ensures doc.JArr? ==> (r.Success? <==> JStr(NewTopicsKey) !in doc.items)
    ensures doc.JStr? ==> (r.Success? <==> !Contains(doc.s, NewTopicsKey))
    ensures !doc.JObj? && r.Success? ==> r.value == doc
    ensures doc.JNull? || doc.JBool? || doc.JNum? ==> r.Failure?
  {
    match doc
    case JObj(fields) => Success(Lookup(fields, NewTopicsKey, doc))
    case JArr(items) => if JStr(NewTopicsKey) in items then Failure("TypeError: list indices must be integers") else Success(doc)
    case JStr(s) => if Contains(s, NewTopicsKey) then Failure("TypeError: string indices must be integers") else Success(doc)
    case _ => Failure("TypeError: argument of type is not iterable")
  }

  /** The candidate list: the path must end in ".json"; the document's
      list is replaced by the `new_topics` of an approved file beside it
      when that file is an object with the key, and kept otherwise. */
  function CandidateList(path: string, doc: Json, approved: Option<Json>): (r: Result<Json>)
    ensures !EndsWith(path, ".json") ==> r == Failure(CandidatesUsage)
    ensures EndsWith(path, ".json") ==> (r.Success? <==> ListedCandidates(doc).Success?)
    ensures r.Success? && approved.Some? && approved.value.JObj? && NewTopicsKey in approved.value.fields ==>
              r.value == approved.value.fields[NewTopicsKey]
    ensures r.Success? && !(approved.Some? && approved.value.JObj? && NewTopicsKey in approved.value.fields) ==>
              r.value == ListedCandidates(doc).value
  {
    if !EndsWith(path, ".json") then Failure(CandidatesUsage)
    else
      var listed := ListedCandidates(doc);
      if listed.Failure? then listed
      else if approved.Some? && approved.value.JObj? then Success(Lookup(approved.value.fields, NewTopicsKey, listed.value))
      else listed
  }

  const ApprovedKey: string := "approved"

  /** The approvals form of the viewer saves its list under `approved`,
      which CandidateList never reads: with a document of two candidates
      and the first one approved, both are used. */
  lemma ViewerApprovalsIgnored(c0: Json, c1: Json)
    ensures CandidateList("run/new_topics.json", JObj(map[NewTopicsKey := JArr([c0, c1])]),
                          Some(JObj(map[ApprovedKey := JArr([c0])]))) == Success(JArr([c0, c1]))
  {
    assert EndsWith("run/new_topics.json", ".json");
  }

  /** The candidate list as intended: an approvals file restricts the
      candidates whether it holds them under `new_topics` or under
      `approved`; everywhere else it agrees with CandidateList. */
  function ApprovedCandidateList(path: string, doc: Json, approved: Option<Json>): (r: Result<Json>)
    ensures var underApproved := approved.Some? && approved.value.JObj? && NewTopicsKey !in approved.value.fields &&
                                 ApprovedKey in approved.value.fields;
            && (!underApproved ==> r == CandidateList(path, doc, approved))
            && (underApproved ==> r == if CandidateList(path, doc, approved).Success?
                                       then Success(approved.value.fields[ApprovedKey])
                                       else CandidateList(path, doc, approved))
  {
    var listed := CandidateList(path, doc, approved);
    if listed.Success? && approved.Some? && approved.value.JObj? && NewTopicsKey !in approved.value.fields &&
       ApprovedKey in approved.value.fields
    then Success(approved.value.fields[ApprovedKey])
    else listed
  }

  /** With the list saved by the approvals form, only the approved
      candidate is used. */
  lemma ViewerApprovalsHonoured(c0: Json, c1: Json)
    ensures ApprovedCandidateList("run/new_topics.json", JObj(map[NewTopicsKey := JArr([c0, c1])]),
                                  Some(JObj(map[ApprovedKey := JArr([c0])]))) == Success(JArr([c0]))
  {
    assert EndsWith("run/new_topics.json", ".json");
  }

  /** `[NewTopicCandidate(**c) for c in lst]`: a list of objects is
      parsed element by element; iterating an empty text or object gives
      no candidates, any other value raises. */
  function CandidatesOf(lst: Json): (r: Result<seq<NewTopicCandidate>>)
    ensures lst.JArr? ==> (r.Success? <==> forall k :: 0 <= k < |lst.items| ==>
                                               lst.items[k].JObj? && ParseCandidate(lst.items[k].fields).Success?)
    ensures lst.JArr? && r.Success? ==>
              |r.value| == |lst.items| &&
              forall k :: 0 <= k < |lst.items| ==> ParseCandidate(lst.items[k].fields) == Success(r.value[k])
    ensures !lst.JArr? ==> (r.Success? <==> !Truthy(lst) && (lst.JStr? || lst.JObj?))
    ensures !lst.JArr? && r.Success? ==> r.value == []
  {
    match lst
    case JArr(items) =>
      if forall k :: 0 <= k < |items| ==> items[k].JObj? then
        var ds := seq(|items|, k requires 0 <= k < |items| => items[k].fields);
        assert forall k :: 0 <= k < |items| ==> ds[k] == items[k].fields;
        ParseAll(ds, ParseCandidate)
      else Failure("TypeError: argument after ** must be a mapping")
    case JStr(s) => if s == "" then Success([]) else Failure("TypeError: argument after ** must be a mapping")
    case JObj(fields) => if fields == map[] then Success([]) else Failure("TypeError: argument after ** must be a mapping")
    case _ => Failure("TypeError: object is not iterable")
  }

  // ---------------------------------------------------------------------
  // cmd_update_taxonomy: user merges (run.py:84-97)

  /** `slugify(m.get(key))`: a missing or falsy value slugs as the empty
      text; a value that is neither falsy nor text raises. */
  function SlugArg(v: Option<Json>): (r: Option<string>)
    ensures r.Some? ==> IsSlug(r.value)
    ensures r.Some? <==> v.None? || !Truthy(v.value) || v.value.JStr?
    ensures v.Some? && v.value.JStr? ==> r == Some(Slugify(v.value.s))
  {
    if v.None? || !Truthy(v.value) then Some(Slugify(""))
    else if v.value.JStr? then Some(Slugify(v.value.s))
    else None
  }

  /** The `(from, to)` slugs of one entry of `merges`, or None when the
      entry raises. */
  function AliasPair(m: Json): Option<(string, string)> {
    if !m.JObj? then None
    else
      var from := SlugArg(Get(m.fields, "from"));
      var to := SlugArg(Get(m.fields, "to"));
      if from.Some? && to.Some? then Some((from.value, to.value)) else None
  }

  /** The map of the pairs of the first `n` entries, later pairs
      overwriting earlier ones; None once an entry has no pair. */
  function MapOfPairs<E, K(==), V>(entries: seq<E>, pairOf: E -> Option<(K, V)>, n: nat): Option<map<K, V>>
    requires n <= |entries|
  {
    if n == 0 then Some(map[])
    else
      var prev := MapOfPairs(entries, pairOf, n - 1);
      var pair := pairOf(entries[n - 1]);
      if prev.None? || pair.None? then None else Some(prev.value[pair.value.0 := pair.value.1])
  }

  /** The map is built when every entry has a pair; its keys are the
      pairs' keys, and each maps to the value of the last pair with that
      key. */
  lemma {:induction false} MapOfPairsLastWins<E, K, V>(entries: seq<E>, pairOf: E -> Option<(K, V)>, n: nat)
    requires n <= |entries|
    ensures MapOfPairs(entries, pairOf, n).Some? <==> forall k :: 0 <= k < n ==> pairOf(entries[k]).Some?
    ensures MapOfPairs(entries, pairOf, n).Some? ==>
              forall key :: key in MapOfPairs(entries, pairOf, n).value <==>
                exists k :: 0 <= k < n && pairOf(entries[k]).value.0 == key
    ensures MapOfPairs(entries, pairOf, n).Some? ==>
              forall key :: key in MapOfPairs(entries, pairOf, n).value ==>
                exists k :: 0 <= k < n && pairOf(entries[k]).value == (key, MapOfPairs(entries, pairOf, n).value[key]) &&
                  forall j :: k < j < n ==> pairOf(entries[j]).value.0 != key
  {
    if n > 0 {
      MapOfPairsLastWins(entries, pairOf, n - 1);
      var prev := MapOfPairs(entries, pairOf, n - 1);
      var pair := pairOf(entries[n - 1]);
      if prev.Some? && pair.Some? {
        var r := prev.value[pair.value.0 := pair.value.1];
        assert MapOfPairs(entries, pairOf, n).value == r;
        forall key | key in r
          ensures exists k :: 0 <= k < n && pairOf(entries[k]).value == (key, r[key]) &&
                    forall j :: k < j < n ==> pairOf(entries[j]).value.0 != key
        {
          if key == pair.value.0 {
            assert pairOf(entries[n - 1]).value == (key, r[key]);
          } else {
            var k :| 0 <= k < n - 1 && pairOf(entries[k]).value == (key, prev.value[key]) &&
                     forall j :: k < j < n - 1 ==> pairOf(entries[j]).value.0 != key;
            assert pairOf(entries[k]).value == (key, r[key]);
          }
        }
      }
    } else {
      assert MapOfPairs(entries, pairOf, n) == Some(map[]);
    }
  }

  /** The loop over `merges`: later entries overwrite earlier ones. */
  method BuildMap<E, K(==), V>(entries: seq<E>, pairOf: E -> Option<(K, V)>) returns (r: Option<map<K, V>>)
    ensures r == MapOfPairs(entries, pairOf, |entries|)
  {
    var built: map<K, V> := map[];
    var i := 0;
    while i < |entries|
      invariant 0 <= i <= |entries|
      invariant MapOfPairs(entries, pairOf, i) == Some(built)
    {
      var pair := pairOf(entries[i]);
      if pair.None? {
        assert MapOfPairs(entries, pairOf, i + 1).None?;
        NoneStays(entries, pairOf, i + 1, |entries|);
        return None;
      }
      assert MapOfPairs(entries, pairOf, i + 1) == Some(built[pair.value.0 := pair.value.1]);
      built := built[pair.value.0 := pair.value.1];
      i := i + 1;
    }
    return Some(built);
  }

  /** Once an entry raises, no later entry brings the map back. */
  lemma {:induction false} NoneStays<E, K, V>(entries: seq<E>, pairOf: E -> Option<(K, V)>, m: nat, n: nat)
    requires m <= n <= |entries|
    requires MapOfPairs(entries, pairOf, m).None?
    ensures MapOfPairs(entries, pairOf, n).None?
    decreases n - m
  {
    if m < n {
      NoneStays(entries, pairOf, m + 1, n);
    }
  }

  /** The alias map of `merges.json`: empty when the file is missing or
      unreadable, when it is not an object, when `merges` is missing or
      falsy, when `merges` is not a list, or when an entry raises. */
  function UserAliasMap(mergesDoc: Option<Json>): map<string, string> {
    if mergesDoc.None? || !mergesDoc.value.JObj? then map[]
    else
      var entries := Get(mergesDoc.value.fields, "merges");
      if entries.None? || !Truthy(entries.value) || !entries.value.JArr? then map[]
      else MapOfPairs(entries.value.items, AliasPair, |entries.value.items|).GetOr(map[])
  }

  /** Every key of the user alias map is the `from` slug of some entry of
      `merges`. */
  lemma UserAliasMapKeys(mergesDoc: Option<Json>)
    ensures forall from :: from in UserAliasMap(mergesDoc) ==>
              && mergesDoc.Some? && mergesDoc.value.JObj? && "merges" in mergesDoc.value.fields
              && mergesDoc.value.fields["merges"].JArr?
              && exists m :: m in mergesDoc.value.fields["merges"].items && AliasPair(m).Some? && AliasPair(m).value.0 == from
  {
    if mergesDoc.Some? && mergesDoc.value.JObj? && "merges" in mergesDoc.value.fields {
      var entries := mergesDoc.value.fields["merges"];
      if entries.JArr? {
        MapOfPairsLastWins(entries.items, AliasPair, |entries.items|);
      }
    }
  }

  /** The alias map, built by the loop. */
  method UserAliases(mergesDoc: Option<Json>) returns (r: map<string, string>)
    ensures r == UserAliasMap(mergesDoc)
  {
    if mergesDoc.None? || !mergesDoc.value.JObj? {
      return map[];
    }
    var entries := Get(mergesDoc.value.fields, "merges");
    if entries.None? || !Truthy(entries.value) || !entries.value.JArr? {
      return map[];
    }
    var built := BuildMap(entries.value.items, AliasPair);
    return built.GetOr(map[]);
  }

  /** The candidates whose slug is not a `from` of the alias map, in
      their order. */
  function DropAliased(candidates: seq<NewTopicCandidate>, aliasMap: map<string, string>): (r: seq<NewTopicCandidate>)
    ensures forall c :: c in r <==> c in candidates && CandidateSlug(c) !in aliasMap
    ensures forall c :: multiset(r)[c] == if CandidateSlug(c) !in aliasMap then multiset(candidates)[c] else 0
    ensures IsSubsequence(r, candidates)
    ensures aliasMap == map[] ==> r == candidates
  {
    if aliasMap == map[] then
      assert forall c :: c in candidates ==> CandidateSlug(c) !in aliasMap;
      SubsequenceSelf(candidates);
      candidates
    else
      FilterInOrder(candidates, NotAliased(aliasMap));
      FilterCounts(candidates, NotAliased(aliasMap));
      Filter(candidates, NotAliased(aliasMap))
  }

  function NotAliased(aliasMap: map<string, string>): NewTopicCandidate -> bool {
    (c: NewTopicCandidate) => CandidateSlug(c) !in aliasMap
  }

  /** update-taxonomy minus its artifacts: reads the candidate list
      (with the approvals file read as ApprovedCandidateList intends),
      drops the candidates merged as aliases and updates the taxonomy.
      No topic id it adds is the `from` of a user merge. */
  method UpdateTaxonomyCommand(base: seq<TaxonomyItem>, candidatesPath: string, doc: Json, approved: Option<Json>,
                               mergesDoc: Option<Json>, defaultScore: real)
    returns (r: Result<(seq<TaxonomyItem>, seq<string>)>)
    ensures r.Success? <==> ApprovedCandidateList(candidatesPath, doc, approved).Success? &&
                            CandidatesOf(ApprovedCandidateList(candidatesPath, doc, approved).value).Success?
    ensures !EndsWith(candidatesPath, ".json") ==> r == Failure(CandidatesUsage)
    ensures r.Success? ==>
              var kept := DropAliased(CandidatesOf(ApprovedCandidateList(candidatesPath, doc, approved).value).value,
                                      UserAliasMap(mergesDoc));
              var slugs := CandidateSlugs(kept);
              && r.value.1 == NewIds(set k | 0 <= k < |base| :: base[k].id, slugs, |slugs|)
              && r.value.0 == base + NewItems(r.value.1, defaultScore)
    ensures r.Success? ==> forall k :: 0 <= k < |r.value.1| ==> r.value.1[k] !in UserAliasMap(mergesDoc)
  {
    var lst := ApprovedCandidateList(candidatesPath, doc, approved);
    if lst.Failure? {
      return Failure(lst.error);
    }
    var parsed := CandidatesOf(lst.value);
    if parsed.Failure? {
      return Failure(parsed.error);
    }
    var aliasMap := UserAliases(mergesDoc);
    var kept := DropAliased(parsed.value, aliasMap);
    var updated, added := UpdateTaxonomy(base, kept, defaultScore);
    AddedNotAliased(set k | 0 <= k < |base| :: base[k].id, kept, aliasMap);
    return Success((updated, added));
  }

  /** The ids added for candidates none of whose slugs is aliased are
      not aliased either. */
  lemma AddedNotAliased(existing: set<string>, kept: seq<NewTopicCandidate>, aliasMap: map<string, string>)
    requires forall c :: c in kept ==> CandidateSlug(c) !in aliasMap
    ensures var slugs := CandidateSlugs(kept);
            forall k :: 0 <= k < |NewIds(existing, slugs, |slugs|)| ==> NewIds(existing, slugs, |slugs|)[k] !in aliasMap
  {
    var slugs := CandidateSlugs(kept);
    NewIdsFresh(existing, slugs, |slugs|);
    forall c | 0 <= c < |slugs| ensures slugs[c] !in aliasMap {
      CandidateSlugsAt(kept, c);
      assert kept[c] in kept;
    }
  }

  // ---------------------------------------------------------------------
  // cmd_score_topics (run.py:131-164)

  const DefaultHalfLifeDays: real := 7.0

  /** A half-life that is missing or not positive becomes seven days. */
  function HalfLifeDays(hld: Option<real>): (r: real)
    ensures r > 0.0
    ensures hld.Some? && hld.value > 0.0 ==> r == hld.value
    ensures hld.None? || hld.value <= 0.0 ==> r == DefaultHalfLifeDays
  {
    if hld.Some? && hld.value > 0.0 then hld.value else DefaultHalfLifeDays
  }

  /** The mentions of one mention file: a `mention_records` list, else a
      `mentions` list, of an object; the whole of a list; nothing from
      anything else. */
  function MentionsOfFile(obj: Json): (r: seq<Json>)
    ensures obj.JArr? ==> r == obj.items
    ensures obj.JObj? && "mention_records" in obj.fields && obj.fields["mention_records"].JArr? ==>
              r == obj.fields["mention_records"].items
    ensures obj.JObj? && !("mention_records" in obj.fields && obj.fields["mention_records"].JArr?) ==>
              r == (if "mentions" in obj.fields && obj.fields["mentions"].JArr? then obj.fields["mentions"].items else [])
    ensures !obj.JArr? && !obj.JObj? ==> r == []
  {
    match obj
    case JObj(fields) =>
      if "mention_records" in fields && fields["mention_records"].JArr? then fields["mention_records"].items
      else if "mentions" in fields && fields["mentions"].JArr? then fields["mentions"].items
      else []
    case JArr(items) => items
    case _ => []
  }

  /** The mentions of the first `n` files, in file order; a file that
      could not be read or parsed (None) is skipped. */
  function Flattened(files: seq<Option<Json>>, n: nat): seq<Json>
    requires n <= |files|
  {
    if n == 0 then []
    else Flattened(files, n - 1) + (if files[n - 1].Some? then MentionsOfFile(files[n - 1].value) else [])
  }

  /** A mention is gathered exactly when some readable file holds it. */
  lemma {:induction false} FlattenedExactly(files: seq<Option<Json>>, n: nat)
    requires n <= |files|
    ensures forall x :: x in Flattened(files, n) <==>
              exists i :: 0 <= i < n && files[i].Some? && x in MentionsOfFile(files[i].value)
  {
    if n > 0 {
      FlattenedExactly(files, n - 1);
    } else {
      assert Flattened(files, n) == [];
    }
  }

  /** The loop that extends `all_mentions` file by file. */
  method FlattenMentions(files: seq<Option<Json>>) returns (all: seq<Json>)
    ensures all == Flattened(files, |files|)
  {
    all := [];
    var i := 0;
    while i < |files|
      invariant 0 <= i <= |files|
      invariant all == Flattened(files, i)
    {
      var f := files[i];
      if f.Some? {
        var obj := f.value;
        if obj.JObj? {
          if "mention_records" in obj.fields && obj.fields["mention_records"].JArr? {
            all := all + obj.fields["mention_records"].items;
          } else if "mentions" in obj.fields && obj.fields["mentions"].JArr? {
            all := all + obj.fields["mentions"].items;
          }
        } else if obj.JArr? {
          all := all + obj.items;
        }
      }
      i := i + 1;
    }
  }

  datatype ScoreEntry = ScoreEntry(topicId: string, score: real)

  /** The content of topic_scores.json. */
  datatype TopicScoresFile = TopicScoresFile(scores: seq<ScoreEntry>, halfLifeDays: real, meetingTypeWeights: Json)

  function EntryScore(e: ScoreEntry): real { e.score }

  /** `sorted(scores.items(), key=lambda kv: -kv[1])` over the items in
      the dict's order: highest score first, the same entries, and equal
      scores in their original order. */
  function OrderedScores(items: seq<ScoreEntry>): (r: seq<ScoreEntry>)
    ensures multiset(r) == multiset(items)
    ensures Descending(r, EntryScore)
    ensures forall v :: WithKey(r, EntryScore, v) == WithKey(items, EntryScore, v)
  {
    forall v ensures WithKey(SortDescending(items, EntryScore), EntryScore, v) == WithKey(items, EntryScore, v) {
      SortDescendingStable(items, EntryScore, v);
    }
    SortDescending(items, EntryScore)
  }

  /** `scores.items()` as `{"topic_id": k, "score": v}` entries, in the
      dict's order (every listed topic is a key, by ScoresOrder). */
  function Entries(d: ScoreDict): (r: seq<ScoreEntry>)
    ensures |r| == |d.order|
  {
    seq(|d.order|, k requires 0 <= k < |d.order| =>
      ScoreEntry(d.order[k], if d.order[k] in d.totals then d.totals[d.order[k]] else 0.0))
  }

  /** A dict whose order lists each of its keys once gives one entry per
      topic, carrying that topic's total. */
  lemma EntriesOfDict(d: ScoreDict)
    requires forall t :: t in d.order <==> t in d.totals
    requires |d.order| == |d.totals|
    ensures |Entries(d)| == |d.totals|
    ensures forall e :: e in Entries(d) <==> e.topicId in d.totals && e.score == d.totals[e.topicId]
  {
    var r := Entries(d);
    forall e ensures e in r <==> e.topicId in d.totals && e.score == d.totals[e.topicId] {
      if e.topicId in d.totals && e.score == d.totals[e.topicId] {
        var k :| 0 <= k < |d.order| && d.order[k] == e.topicId;
        assert r[k] == e;
      }
    }
  }

  /** `json.loads(args.meeting_type_weights)` when the argument is given
      and not empty, `{}` when it is missing or does not parse (`loads`
      gives None). */
  function MeetingTypeWeightsArg(arg: Option<string>, loads: string -> Option<Json>): (r: Json)
    ensures arg.None? || arg.value == "" ==> r == JObj(map[])
    ensures arg.Some? && arg.value != "" && loads(arg.value).None? ==> r == JObj(map[])
    ensures arg.Some? && arg.value != "" && loads(arg.value).Some? ==> r == loads(arg.value).value
  {
    if arg.None? || arg.value == "" then JObj(map[])
    else if loads(arg.value).None? then JObj(map[])
    else loads(arg.value).value
  }

  /** `mtw or None`. */
  function GivenWeights(mtw: Json): Option<Json> {
    if Truthy(mtw) then Some(mtw) else None
  }

  /** The scoring configuration of score-topics: default speaker weights,
      the given meeting-type weights (or the defaults when falsy), the
      normalised half-life and the clock's `now`. */
  function ScoreTopicsConfig(halfLifeArg: Option<real>, mtw: Json, clock: real, py: Builtins): Config {
    ScoringConfig(None, GivenWeights(mtw), Some(HalfLifeDays(halfLifeArg)), None, clock, py)
  }

  /** score-topics minus the file system: gathers the mentions of the
      files, scores them with the given meeting-type weights and one
      half-life, and orders the result. The file lists every scored topic
      once with its total, highest first, and records the half-life and
      the weights it was given. */
  method ScoreTopics(files: seq<Option<Json>>, halfLifeArg: Option<real>, mtwArg: Option<string>,
                     loads: string -> Option<Json>, clock: real, py: Builtins)
    returns (r: Result<TopicScoresFile>)
    ensures var cfg := ScoreTopicsConfig(halfLifeArg, MeetingTypeWeightsArg(mtwArg, loads), clock, py);
            var all := Flattened(files, |files|);
            && (r.Success? <==> Totals(all, cfg).Success?)
            && (r.Success? ==> r.value.scores == OrderedScores(Entries(Scores(all, cfg).value)))
            && (r.Success? ==>
                  && |r.value.scores| == |Totals(all, cfg).value|
                  && forall e :: e in r.value.scores <==>
                       e.topicId in Totals(all, cfg).value && e.score == Totals(all, cfg).value[e.topicId])
    ensures r.Success? ==> Descending(r.value.scores, EntryScore)
    ensures r.Success? ==> r.value.halfLifeDays == HalfLifeDays(halfLifeArg) &&
                           r.value.meetingTypeWeights == MeetingTypeWeightsArg(mtwArg, loads)
  {
    var all := FlattenMentions(files);
    var mtw := MeetingTypeWeightsArg(mtwArg, loads);
    var hld := HalfLifeDays(halfLifeArg);
    var scores := ScoreMentions(all, None, GivenWeights(mtw), Some(hld), None, clock, py);
    ghost var cfg := ScoreTopicsConfig(halfLifeArg, mtw, clock, py);
    if scores.Failure? {
      return Failure(scores.error);
    }
    ScoresOrder(all, cfg);
    EntriesOfDict(scores.value);
    var entries := Entries(scores.value);
    var ordered := OrderedScores(entries);
    assert forall e :: e in ordered <==> e in entries by {
      forall e ensures e in ordered <==> e in entries {
        assert e in ordered <==> e in multiset(ordered);
      }
    }
    return Success(TopicScoresFile(ordered, hld, mtw));
  }
}
