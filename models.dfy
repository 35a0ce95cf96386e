/** pipeline/models.py: the record shapes of the pipeline, and the JSON
    values they are validated from.

    Validation follows pydantic's `Model(**d)`: the argument must be a
    mapping, required fields must be present, a `str` field takes only a
    string, a `float` field anything `float()` converts (a number, a
    boolean, a numeric string), optional fields take their defaults, and
    unknown keys are ignored. */
module Models {
  import opened Wrappers

  /** A JSON value as json.load/orjson.loads return it; JNull is None. */
  datatype Json =
    | JNull
    | JBool(b: bool)
    | JNum(n: real)
    | JStr(s: string)
    | JArr(items: seq<Json>)
    | JObj(fields: map<string, Json>)

  /** Python truthiness of a JSON value. */
  predicate Truthy(v: Json) {
    match v
    case JNull => false
    case JBool(b) => b
    case JNum(n) => n != 0.0
    case JStr(s) => s != ""
    case JArr(items) => items != []
    case JObj(fields) => fields != map[]
  }

  /** Python truthiness of an optional text: given and not empty. */
  predicate Given(v: Option<string>) { v.Some? && v.value != "" }

  /** `d.get(key)`: the value, or None when the key is absent. */
  function Get(d: map<string, Json>, key: string): Option<Json> {
    if key in d then Some(d[key]) else None
  }

  datatype TaxonomyItem = TaxonomyItem(id: string, score: real)

  const DefaultItemScore: real := 0.0

  datatype NewTopicCandidate = NewTopicCandidate(
    labelText: string,
    evidence: string,
    whyNew: string,
    topicId: Option<string>)

  datatype NewTopicResponse = NewTopicResponse(newTopics: seq<NewTopicCandidate>)

  datatype Chunk = Chunk(
    chunkId: string,
    speaker: string,
    startTime: Option<string>,
    text: string)

  datatype Mention = Mention(
    chunkId: string,
    topicId: Option<string>,
    topicLabel: string,
    evidence: string,
    relevance: Option<real>)

  datatype MentionsResponse = MentionsResponse(mentions: seq<Mention>)

  // ---------------------------------------------------------------------
  // Field validation.

  /** A required `str` field. */
  function RequiredString(d: map<string, Json>, key: string): (r: Result<string>)
    ensures r.Success? <==> key in d && d[key].JStr?
    ensures r.Success? ==> d[key] == JStr(r.value)
  {
    if key in d && d[key].JStr? then Success(d[key].s)
    else Failure("field required: " + key)
  }

  /** An `Optional[str] = None` field: absent or null gives None. */
  function OptionalString(d: map<string, Json>, key: string): (r: Result<Option<string>>)
    ensures r.Success? <==> key !in d || d[key].JNull? || d[key].JStr?
    ensures r == Success(None) <==> key !in d || d[key].JNull?
    ensures r.Success? && r.value.Some? ==> d[key] == JStr(r.value.value)
  {
    if key !in d || d[key].JNull? then Success(None)
    else if d[key].JStr? then Success(Some(d[key].s))
    else Failure("invalid string: " + key)
  }

  /** Python's `float(v)` on a JSON value, which is also what a `float`
      field of pydantic's default (lax) mode accepts: a number is itself,
      a boolean is 1.0 or 0.0, a string is what `floatOf` reads from it
      (None when it is not a number); null, lists and dicts fail. */
  function PyFloat(v: Json, floatOf: string -> Option<real>): (r: Result<real>)
    ensures r.Success? <==> v.JNum? || v.JBool? || (v.JStr? && floatOf(v.s).Some?)
    ensures v.JNum? ==> r == Success(v.n)
    ensures v == JBool(true) ==> r == Success(1.0)
    ensures v == JBool(false) ==> r == Success(0.0)
    ensures v.JStr? && floatOf(v.s).Some? ==> r == Success(floatOf(v.s).value)
  {
    match v
    case JNum(n) => Success(n)
    case JBool(b) => Success(if b then 1.0 else 0.0)
    case JStr(s) => if floatOf(s).Some? then Success(floatOf(s).value) else Failure("could not convert string to float")
    case _ => Failure("float() argument must be a string or a real number")
  }

  /** A `float` field with a default. */
  function NumberOr(d: map<string, Json>, key: string, default: real, floatOf: string -> Option<real>): (r: Result<real>)
    ensures r.Success? <==> key !in d || PyFloat(d[key], floatOf).Success?
    ensures key !in d ==> r == Success(default)
    ensures key in d ==> r == PyFloat(d[key], floatOf)
  {
    if key !in d then Success(default) else PyFloat(d[key], floatOf)
  }

  /** An `Optional[float] = None` field. */
  function OptionalNumber(d: map<string, Json>, key: string, floatOf: string -> Option<real>): (r: Result<Option<real>>)
    ensures r.Success? <==> key !in d || d[key].JNull? || PyFloat(d[key], floatOf).Success?
    ensures r == Success(None) <==> key !in d || d[key].JNull?
    ensures r.Success? && r.value.Some? ==> PyFloat(d[key], floatOf) == Success(r.value.value)
  {
    if key !in d || d[key].JNull? then Success(None)
    else
      var x := PyFloat(d[key], floatOf);
      if x.Failure? then Failure(x.error) else Success(Some(x.value))
  }

  /** The elements a `for` loop over `v` hands to `Model(**e)`: the items
      of a list; a non-empty dict or string yields keys or characters,
      which are not mappings; other values are not iterable. */
  function MappingElements(v: Json): (r: Result<seq<map<string, Json>>>)
    ensures v.JArr? ==> (r.Success? <==> forall i :: 0 <= i < |v.items| ==> v.items[i].JObj?)
    ensures r.Success? && v.JArr? ==>
              |r.value| == |v.items| && forall i :: 0 <= i < |v.items| ==> v.items[i] == JObj(r.value[i])
    ensures !v.JArr? ==> (r.Success? <==> v == JObj(map[]) || v == JStr("")) &&
                         (r.Success? ==> r.value == [])
  {
    match v
    case JArr(items) => ObjectsOf(items)
    case JObj(fields) => if fields == map[] then Success([]) else Failure("argument after ** must be a mapping, not str")
    case JStr(s) => if s == "" then Success([]) else Failure("argument after ** must be a mapping, not str")
    case _ => Failure("object is not iterable")
  }

  function ObjectsOf(items: seq<Json>): (r: Result<seq<map<string, Json>>>)
    ensures r.Success? <==> forall i :: 0 <= i < |items| ==> items[i].JObj?
    ensures r.Success? ==>
              |r.value| == |items| && forall i :: 0 <= i < |items| ==> items[i] == JObj(r.value[i])
  {
    if items == [] then Success([])
    else if !items[0].JObj? then Failure("argument after ** must be a mapping")
    else
      var rest := ObjectsOf(items[1..]);
      if rest.Failure? then rest else Success([items[0].fields] + rest.value)
  }

  // ---------------------------------------------------------------------
  // The models.

  /** TaxonomyItem(**d): `id` is required, `score` defaults to 0.0
      (pipeline/models.py:6-8). */
  function ParseTaxonomyItem(d: map<string, Json>, floatOf: string -> Option<real>): (r: Result<TaxonomyItem>)
    ensures r.Success? <==> "id" in d && d["id"].JStr? && ("score" !in d || PyFloat(d["score"], floatOf).Success?)
    ensures r.Success? ==> d["id"] == JStr(r.value.id)
    ensures r.Success? && "score" !in d ==> r.value.score == DefaultItemScore
    ensures r.Success? && "score" in d ==> PyFloat(d["score"], floatOf) == Success(r.value.score)
  {
    var id := RequiredString(d, "id");
    var score := NumberOr(d, "score", DefaultItemScore, floatOf);
    if id.Failure? then Failure(id.error)
    else if score.Failure? then Failure(score.error)
    else Success(TaxonomyItem(id.value, score.value))
  }

  /** NewTopicCandidate(**d): `label`, `evidence` and `why_new` are
      required, `topic_id` is optional and defaults to None
      (pipeline/models.py:11-15). */
  function ParseCandidate(d: map<string, Json>): (r: Result<NewTopicCandidate>)
    ensures r.Success? <==>
              && "label" in d && d["label"].JStr?
              && "evidence" in d && d["evidence"].JStr?
              && "why_new" in d && d["why_new"].JStr?
              && ("topic_id" !in d || d["topic_id"].JNull? || d["topic_id"].JStr?)
    ensures r.Success? ==> d["label"] == JStr(r.value.labelText) && d["evidence"] == JStr(r.value.evidence)
                           && d["why_new"] == JStr(r.value.whyNew)
    ensures r.Success? ==> (r.value.topicId.None? <==> "topic_id" !in d || d["topic_id"].JNull?)
    ensures r.Success? && r.value.topicId.Some? ==> d["topic_id"] == JStr(r.value.topicId.value)
  {
    var labelText := RequiredString(d, "label");
    var evidence := RequiredString(d, "evidence");
    var whyNew := RequiredString(d, "why_new");
    var topicId := OptionalString(d, "topic_id");
    if labelText.Failure? then Failure(labelText.error)
    else if evidence.Failure? then Failure(evidence.error)
    else if whyNew.Failure? then Failure(whyNew.error)
    else if topicId.Failure? then Failure(topicId.error)
    else Success(NewTopicCandidate(labelText.value, evidence.value, whyNew.value, topicId.value))
  }

  /** Mention(**d): `chunk_id`, `topic_label` and `evidence` are required;
      `topic_id` and `relevance` are optional (pipeline/models.py:29-34). */
  function ParseMention(d: map<string, Json>, floatOf: string -> Option<real>): (r: Result<Mention>)
    ensures r.Success? <==>
              && "chunk_id" in d && d["chunk_id"].JStr?
              && "topic_label" in d && d["topic_label"].JStr?
              && "evidence" in d && d["evidence"].JStr?
              && ("topic_id" !in d || d["topic_id"].JNull? || d["topic_id"].JStr?)
              && ("relevance" !in d || d["relevance"].JNull? || PyFloat(d["relevance"], floatOf).Success?)
    ensures r.Success? ==> d["chunk_id"] == JStr(r.value.chunkId) && d["topic_label"] == JStr(r.value.topicLabel)
                           && d["evidence"] == JStr(r.value.evidence)
    ensures r.Success? ==> (r.value.topicId.None? <==> "topic_id" !in d || d["topic_id"].JNull?)
    ensures r.Success? && r.value.topicId.Some? ==> d["topic_id"] == JStr(r.value.topicId.value)
    ensures r.Success? ==> (r.value.relevance.None? <==> "relevance" !in d || d["relevance"].JNull?)
    ensures r.Success? && r.value.relevance.Some? ==> PyFloat(d["relevance"], floatOf) == Success(r.value.relevance.value)
  {
    var chunkId := RequiredString(d, "chunk_id");
    var labelText := RequiredString(d, "topic_label");
    var evidence := RequiredString(d, "evidence");
    var topicId := OptionalString(d, "topic_id");
    var relevance := OptionalNumber(d, "relevance", floatOf);
    if chunkId.Failure? then Failure(chunkId.error)
    else if labelText.Failure? then Failure(labelText.error)
    else if evidence.Failure? then Failure(evidence.error)
    else if topicId.Failure? then Failure(topicId.error)
    else if relevance.Failure? then Failure(relevance.error)
    else Success(Mention(chunkId.value, topicId.value, labelText.value, evidence.value, relevance.value))
  }

  /** Validates every element, stopping at the first that fails. */
  function ParseAll<T>(ds: seq<map<string, Json>>, parse: map<string, Json> -> Result<T>): (r: Result<seq<T>>)
    ensures r.Success? <==> forall i :: 0 <= i < |ds| ==> parse(ds[i]).Success?
    ensures r.Success? ==>
              |r.value| == |ds| && forall i :: 0 <= i < |ds| ==> parse(ds[i]) == Success(r.value[i])
  {
    if ds == [] then Success([])
    else
      var head := parse(ds[0]);
      if head.Failure? then Failure(head.error)
      else
        var rest := ParseAll(ds[1..], parse);
        if rest.Failure? then rest else Success([head.value] + rest.value)
  }

  /** NewTopicResponse(**d): `new_topics` defaults to the empty list
      (pipeline/models.py:18-19); on success candidate `i` is the
      validation of item `i`. */
  function ParseNewTopicResponse(d: map<string, Json>): (r: Result<NewTopicResponse>)
    ensures "new_topics" !in d ==> r == Success(NewTopicResponse([]))
    ensures "new_topics" in d && d["new_topics"].JArr? ==>
              (r.Success? <==> (forall i :: 0 <= i < |d["new_topics"].items| ==>
                                 d["new_topics"].items[i].JObj? &&
                                 ParseCandidate(d["new_topics"].items[i].fields).Success?))
    ensures r.Success? && "new_topics" in d ==>
              && d["new_topics"].JArr?
              && |r.value.newTopics| == |d["new_topics"].items|
              && forall i :: 0 <= i < |d["new_topics"].items| ==>
                   d["new_topics"].items[i].JObj? &&
                   ParseCandidate(d["new_topics"].items[i].fields) == Success(r.value.newTopics[i])
  {
    if "new_topics" !in d then Success(NewTopicResponse([]))
    else if !d["new_topics"].JArr? then Failure("new_topics: input should be a valid list")
    else
      var items := d["new_topics"].items;
      var objs := ObjectsOf(items);
      if objs.Failure? then Failure(objs.error)
      else
        var cs := ParseAll(objs.value, ParseCandidate);
        if cs.Failure? then Failure(cs.error) else Success(NewTopicResponse(cs.value))
  }

  /** MentionsResponse(**d): `mentions` defaults to the empty list
      (pipeline/models.py:37-38); on success mention `i` is the
      validation of item `i`. */
  function ParseMentionsResponse(d: map<string, Json>, floatOf: string -> Option<real>): (r: Result<MentionsResponse>)
    ensures "mentions" !in d ==> r == Success(MentionsResponse([]))
    ensures "mentions" in d && d["mentions"].JArr? ==>
              (r.Success? <==> (forall i :: 0 <= i < |d["mentions"].items| ==>
                                 d["mentions"].items[i].JObj? &&
                                 ParseMention(d["mentions"].items[i].fields, floatOf).Success?))
    ensures r.Success? && "mentions" in d ==>
              && d["mentions"].JArr?
              && |r.value.mentions| == |d["mentions"].items|
              && forall i :: 0 <= i < |d["mentions"].items| ==>
                   d["mentions"].items[i].JObj? &&
                   ParseMention(d["mentions"].items[i].fields, floatOf) == Success(r.value.mentions[i])
  {
    if "mentions" !in d then Success(MentionsResponse([]))
    else if !d["mentions"].JArr? then Failure("mentions: input should be a valid list")
    else
      var items := d["mentions"].items;
      var objs := ObjectsOf(items);
      if objs.Failure? then Failure(objs.error)
      else
        var ms := ParseAll(objs.value, (m: map<string, Json>) => ParseMention(m, floatOf));
        if ms.Failure? then Failure(ms.error) else Success(MentionsResponse(ms.value))
  }
}
