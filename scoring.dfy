/** `score_mentions` (pipeline/steps.py:287-342): which mentions are
    skipped and which raise, the weight and the time decay each receives,
    and the per-topic totals keyed by slug, in the order the topics first
    receive an amount. Python's `str` of a non-string value, `float` of a
    string, `datetime.fromisoformat`, `**` on floats and the clock are
    parameters. */
module Scoring {
  import opened Wrappers
  import opened Text
  import opened Utils
  import opened Models
  import opened Steps

  const UnknownRole: string := "unknown"
  const DefaultWeight: real := 1.0
  const DefaultRelevance: real := 1.0
  const SecondsPerDay: real := 86400.0
  /** The smallest half-life the decay base is computed from, `1e-6` days. */
  const MinHalfLife: real := 0.000001
  const HalvingBase: real := 0.5

  const DefaultSpeakerWeights: map<string, Json> :=
    map["customer" := JNum(1.5), "pm" := JNum(1.2), "engineer" := JNum(1.1), "unknown" := JNum(1.0)]

  const DefaultMeetingTypeWeights: map<string, Json> :=
    map["customer_call" := JNum(1.3), "refinement" := JNum(1.2), "brainstorm" := JNum(0.9),
        "internal" := JNum(1.0), "unknown" := JNum(1.0)]

  /** A `datetime`: whether it carries a UTC offset, and its instant in
      seconds (UTC for an aware one, wall-clock time for a naive one). */
  datatype Moment = Moment(aware: bool, seconds: real)

  /** The Python built-ins scoring relies on: `str(v)` of a value that is
      not a string, `float(s)` of a string (None when it raises),
      `datetime.fromisoformat(s)` (None when it raises ValueError) and
      `x ** y` on floats. */
  datatype Builtins = Builtins(
    render: Json -> string,
    floatOf: string -> Option<real>,
    fromIso: string -> Option<Moment>,
    pow: (real, real) -> real)

  /** `given or defaults`: a missing or falsy table falls back to the defaults. */
  function EffectiveWeights(given: Option<Json>, defaults: map<string, Json>): (w: Json)
    ensures given.Some? && Truthy(given.value) ==> w == given.value
    ensures given.None? || !Truthy(given.value) ==> w == JObj(defaults)
  {
    if given.Some? && Truthy(given.value) then given.value else JObj(defaults)
  }

  /** `float(weights.get(key, 1.0))`: a table that is not a dict has no
      `get`; an unlisted key weighs 1.0; a listed weight is converted by
      `float`. */
  function Weight(weights: Json, key: string, floatOf: string -> Option<real>): (w: Result<real>)
    ensures !weights.JObj? ==> w.Failure?
    ensures weights.JObj? && key !in weights.fields ==> w == Success(DefaultWeight)
    ensures weights.JObj? && key in weights.fields ==> w == PyFloat(weights.fields[key], floatOf)
  {
    if !weights.JObj? then Failure("object has no attribute 'get'")
    else if key in weights.fields then PyFloat(weights.fields[key], floatOf)
    else Success(DefaultWeight)
  }

  /** What score_mentions fixes before its loop: the weight tables in
      force, `now`, and the per-day decay base (None: no decay). */
  datatype Config = Config(
    speakerWeights: Json,
    meetingTypeWeights: Json,
    now: Moment,
    perDayDecay: Option<real>,
    py: Builtins)

  /** `0.5 ** (1.0 / max(1e-6, half_life_days))`, or None when no
      half-life is given. */
  function PerDayDecay(halfLifeDays: Option<real>, pow: (real, real) -> real): Option<real> {
    if halfLifeDays.None? then None
    else Some(pow(HalvingBase, 1.0 / (if halfLifeDays.value > MinHalfLife then halfLifeDays.value else MinHalfLife)))
  }

  /** The configuration score_mentions sets up from its arguments; `now`
      defaults to the clock's aware UTC time. */
  function ScoringConfig(speakerWeights: Option<Json>, meetingTypeWeights: Option<Json>, halfLifeDays: Option<real>,
                         now: Option<Moment>, clock: real, py: Builtins): Config {
    Config(EffectiveWeights(speakerWeights, DefaultSpeakerWeights),
           EffectiveWeights(meetingTypeWeights, DefaultMeetingTypeWeights),
           if now.Some? then now.value else Moment(true, clock),
           PerDayDecay(halfLifeDays, py.pow),
           py)
  }

  /** What one mention adds: nothing, or an amount for a topic slug. */
  datatype Contribution = Skip | Add(topic: string, amount: real)

  /** `m.get("topic_id") or m.get("topic_label")`. */
  function TopicRef(m: map<string, Json>): Option<Json> {
    Or(Get(m, "topic_id"), Get(m, "topic_label"))
  }

  /** `str(m.get(key) or "unknown").lower()`. */
  function Category(m: map<string, Json>, key: string, render: Json -> string): string {
    Lower(PyStr(Or(Get(m, key), Some(JStr(UnknownRole))).value, render))
  }

  /** `float(m.get("relevance", 1.0) or 1.0)`: an absent or falsy value
      counts as 1.0, anything else as what `float` makes of it. */
  function Relevance(v: Option<Json>, floatOf: string -> Option<real>): (r: Result<real>)
    ensures v.None? || !Truthy(v.value) ==> r == Success(DefaultRelevance)
    ensures v.Some? && Truthy(v.value) ==> r == PyFloat(v.value, floatOf)
    ensures v.Some? && v.value.JNum? ==> r == Success(if v.value.n == 0.0 then DefaultRelevance else v.value.n)
    ensures v == Some(JBool(true)) ==> r == Success(1.0)
    ensures v.Some? && (v.value.JArr? || v.value.JObj?) ==> (r.Failure? <==> Truthy(v.value))
    ensures v.Some? && v.value.JStr? && v.value.s != "" ==>
              (r.Success? <==> floatOf(v.value.s).Some?) && (r.Success? ==> r.value == floatOf(v.value.s).value)
  {
    if v.None? || !Truthy(v.value) then Success(DefaultRelevance) else PyFloat(v.value, floatOf)
  }

  /** `datetime.fromisoformat(ts) if ts else now`, falling back to `now`
      when it raises: a non-string raises TypeError, a malformed string
      ValueError. */
  function When(m: map<string, Json>, now: Moment, fromIso: string -> Option<Moment>): (w: Moment)
    ensures w != now ==> exists ts :: Get(m, "timestamp") == Some(JStr(ts)) && ts != "" && fromIso(ts) == Some(w)
    ensures forall ts :: Get(m, "timestamp") == Some(JStr(ts)) && ts != "" && fromIso(ts).Some? ==> w == fromIso(ts).value
  {
    var ts := Get(m, "timestamp");
    if ts.None? || !Truthy(ts.value) || !ts.value.JStr? || fromIso(ts.value.s).None? then now
    else fromIso(ts.value.s).value
  }

  /** `max(0.0, (now - when).total_seconds() / 86400.0)`: the age in days,
      never negative; subtracting a naive datetime from an aware one, or
      the reverse, raises TypeError. */
  function Age(now: Moment, when: Moment): (r: Result<real>)
    ensures r.Success? <==> now.aware == when.aware
    ensures r.Success? ==> r.value >= 0.0
    ensures r.Success? && when.seconds <= now.seconds ==> r.value == (now.seconds - when.seconds) / SecondsPerDay
    ensures r.Success? && now.seconds <= when.seconds ==> r.value == 0.0
  {
    if now.aware != when.aware then Failure("can't subtract offset-naive and offset-aware datetimes")
    else
      var days := (now.seconds - when.seconds) / SecondsPerDay;
      Success(if days > 0.0 then days else 0.0)
  }

  /** `1.0 if per_day_decay is None else per_day_decay ** days`. */
  function Decay(perDayDecay: Option<real>, days: real, pow: (real, real) -> real): real {
    if perDayDecay.None? then 1.0 else pow(perDayDecay.value, days)
  }

  /** `rel * w_speaker * w_meeting * decay`. */
  function Amount(relevance: real, wSpeaker: real, wMeeting: real, decay: real): real {
    relevance * wSpeaker * wMeeting * decay
  }

  /** One iteration of the scoring loop. */
  function MentionContribution(m: Json, cfg: Config): Result<Contribution>
  {
    if !m.JObj? then Failure("'m' has no attribute 'get'")
    else
      var d := m.fields;
      var tid := TopicRef(d);
      if tid.None? || !Truthy(tid.value) then Success(Skip)
      else Scored(tid.value,
                  Weight(cfg.speakerWeights, Category(d, "speaker_role", cfg.py.render), cfg.py.floatOf),
                  Weight(cfg.meetingTypeWeights, Category(d, "meeting_type", cfg.py.render), cfg.py.floatOf),
                  Relevance(Get(d, "relevance"), cfg.py.floatOf),
                  Age(cfg.now, When(d, cfg.now, cfg.py.fromIso)),
                  cfg)
  }

  /** The rest of the iteration, in the order the source evaluates it:
      the two weights, the relevance, the age, then `slugify(tid)`. */
  function Scored(tid: Json, wSpeaker: Result<real>, wMeeting: Result<real>, rel: Result<real>, days: Result<real>,
                  cfg: Config): Result<Contribution>
  {
    if wSpeaker.Failure? then Failure(wSpeaker.error)
    else if wMeeting.Failure? then Failure(wMeeting.error)
    else if rel.Failure? then Failure(rel.error)
    else if days.Failure? then Failure(days.error)
    else if !tid.JStr? then Failure("topic id has no attribute 'strip'")
    else Success(Add(Slugify(tid.s),
                     Amount(rel.value, wSpeaker.value, wMeeting.value, Decay(cfg.perDayDecay, days.value, cfg.py.pow))))
  }

  /** A mention that is not a dict fails; one without a truthy topic
      reference is skipped; a truthy reference that is not a string fails.
      This and the next two lemmas follow from the definition alone; they
      record its cases for the lemmas below. */
  lemma MentionContributionCases(m: Json, cfg: Config)
    ensures !m.JObj? ==> MentionContribution(m, cfg).Failure?
    ensures m.JObj? ==>
              (MentionContribution(m, cfg) == Success(Skip) <==>
                 TopicRef(m.fields).None? || !Truthy(TopicRef(m.fields).value))
    ensures m.JObj? && TopicRef(m.fields).Some? && Truthy(TopicRef(m.fields).value) && !TopicRef(m.fields).value.JStr? ==>
              MentionContribution(m, cfg).Failure?
  {
  }

  /** A contribution goes to the slug of the mention's text reference. */
  lemma ContributionTopic(m: Json, cfg: Config)
    ensures MentionContribution(m, cfg).Success? && MentionContribution(m, cfg).value.Add? ==>
              && m.JObj? && TopicRef(m.fields).Some? && TopicRef(m.fields).value.JStr?
              && MentionContribution(m, cfg).value.topic == Slugify(TopicRef(m.fields).value.s)
              && IsSlug(MentionContribution(m, cfg).value.topic)
  {
  }

  /** A mention with a text reference is scored exactly when both
      weights, its relevance and its age can be computed; it then adds its
      relevance times the weights of its lower-cased speaker role and
      meeting type (1.0 when unlisted) times its decay (CategoryIsLower:
      the role and type are lower-cased). */
  lemma ContributionAmount(m: map<string, Json>, cfg: Config, tid: string)
    requires TopicRef(m) == Some(JStr(tid)) && tid != ""
    ensures var wSpeaker := Weight(cfg.speakerWeights, Category(m, "speaker_role", cfg.py.render), cfg.py.floatOf);
            var wMeeting := Weight(cfg.meetingTypeWeights, Category(m, "meeting_type", cfg.py.render), cfg.py.floatOf);
            var rel := Relevance(Get(m, "relevance"), cfg.py.floatOf);
            var days := Age(cfg.now, When(m, cfg.now, cfg.py.fromIso));
            && (MentionContribution(JObj(m), cfg).Success? <==>
                  wSpeaker.Success? && wMeeting.Success? && rel.Success? && days.Success?)
            && (MentionContribution(JObj(m), cfg).Success? ==>
                  MentionContribution(JObj(m), cfg) ==
                    Success(Add(Slugify(tid), Amount(rel.value, wSpeaker.value, wMeeting.value,
                                                     Decay(cfg.perDayDecay, days.value, cfg.py.pow)))))
  {
  }

  /** The role and meeting type are looked up lower-cased. */
  lemma CategoryIsLower(m: map<string, Json>, key: string, render: Json -> string)
    ensures var c := Category(m, key, render);
            forall k :: 0 <= k < |c| ==> !IsAsciiUpper(c[k])
  {
    LowerHasNoUpper(PyStr(Or(Get(m, key), Some(JStr(UnknownRole))).value, render));
  }

  /** With the default aware `now`, a mention that would otherwise be
      scored but whose timestamp parses to a naive datetime makes scoring
      raise: the subtraction sits outside the `try` around the parse. */
  lemma NaiveTimestampFails(m: map<string, Json>, cfg: Config, tid: string, ts: string, seconds: real)
    requires cfg.now.aware
    requires TopicRef(m) == Some(JStr(tid)) && tid != ""
    requires Get(m, "timestamp") == Some(JStr(ts)) && ts != "" && cfg.py.fromIso(ts) == Some(Moment(false, seconds))
    ensures MentionContribution(JObj(m), cfg).Failure?
  {
    assert When(m, cfg.now, cfg.py.fromIso) == Moment(false, seconds);
  }

  lemma LowerHasNoUpper(s: string)
    ensures forall k :: 0 <= k < |Lower(s)| ==> !IsAsciiUpper(Lower(s)[k])
  {
  }

  /** `totals[topic] += amount` on a defaultdict(float). */
  function Accumulate(totals: map<string, real>, topic: string, amount: real): map<string, real> {
    totals[topic := (if topic in totals then totals[topic] else 0.0) + amount]
  }

  /** What each mention contributes, in order. */
  function Contributions(mentions: seq<Json>, cfg: Config): (cs: seq<Result<Contribution>>)
    ensures |cs| == |mentions|
    ensures forall k :: 0 <= k < |mentions| ==> cs[k] == MentionContribution(mentions[k], cfg)
  {
    seq(|mentions|, k requires 0 <= k < |mentions| => MentionContribution(mentions[k], cfg))
  }

  /** The totals after the first `n` contributions, or the first failure. */
  function Fold(cs: seq<Result<Contribution>>, n: nat): Result<map<string, real>>
    requires n <= |cs|
  {
    if n == 0 then Success(map[])
    else
      var prev := Fold(cs, n - 1);
      if prev.Failure? then prev
      else if cs[n - 1].Failure? then Failure(cs[n - 1].error)
      else if cs[n - 1].value.Skip? then prev
      else Success(Accumulate(prev.value, cs[n - 1].value.topic, cs[n - 1].value.amount))
  }

  /** The per-topic totals of all the mentions. */
  function Totals(mentions: seq<Json>, cfg: Config): Result<map<string, real>> {
    Fold(Contributions(mentions, cfg), |mentions|)
  }

  /** The amounts the first `n` contributions give to `topic`, summed. */
  function TopicSum(cs: seq<Result<Contribution>>, topic: string, n: nat): real
    requires n <= |cs|
  {
    if n == 0 then 0.0
    else TopicSum(cs, topic, n - 1) +
         (if cs[n - 1].Success? && cs[n - 1].value.Add? && cs[n - 1].value.topic == topic then cs[n - 1].value.amount else 0.0)
  }

  /** `cs[k]` adds to `topic`. */
  predicate AddsTo(cs: seq<Result<Contribution>>, k: nat, topic: string)
    requires k < |cs|
  {
    cs[k].Success? && cs[k].value.Add? && cs[k].value.topic == topic
  }

  /** Folding fails exactly when some contribution is a failure. */
  lemma {:induction false} FoldFails(cs: seq<Result<Contribution>>, n: nat)
    requires n <= |cs|
    ensures Fold(cs, n).Success? <==> forall k :: 0 <= k < n ==> cs[k].Success?
  {
    if n > 0 {
      FoldFails(cs, n - 1);
    }
  }

  /** The keys are exactly the topics some contribution adds to. */
  lemma {:induction false} FoldKeys(cs: seq<Result<Contribution>>, n: nat)
    requires n <= |cs|
    requires Fold(cs, n).Success?
    ensures forall topic :: topic in Fold(cs, n).value <==> exists k :: 0 <= k < n && AddsTo(cs, k, topic)
  {
    if n > 0 {
      FoldKeys(cs, n - 1);
      forall topic ensures topic in Fold(cs, n).value <==> exists k :: 0 <= k < n && AddsTo(cs, k, topic) {
        if topic in Fold(cs, n - 1).value {
          var k :| 0 <= k < n - 1 && AddsTo(cs, k, topic);
          assert AddsTo(cs, k, topic);
        }
        if AddsTo(cs, n - 1, topic) {
          assert topic in Fold(cs, n).value;
        }
      }
    } else {
      assert Fold(cs, n).value == map[];
    }
  }

  /** Each total is the sum of the amounts added to its topic. */
  lemma {:induction false} FoldSums(cs: seq<Result<Contribution>>, n: nat)
    requires n <= |cs|
    requires Fold(cs, n).Success?
    ensures forall topic :: topic in Fold(cs, n).value ==> Fold(cs, n).value[topic] == TopicSum(cs, topic, n)
  {
    if n > 0 {
      FoldSums(cs, n - 1);
      FoldKeys(cs, n - 1);
      forall topic | topic in Fold(cs, n).value ensures Fold(cs, n).value[topic] == TopicSum(cs, topic, n) {
        if topic !in Fold(cs, n - 1).value {
          NoAddsNoSum(cs, topic, n - 1);
        }
      }
    } else {
      assert Fold(cs, n).value == map[];
    }
  }

  lemma {:induction false} NoAddsNoSum(cs: seq<Result<Contribution>>, topic: string, n: nat)
    requires n <= |cs|
    requires forall k :: 0 <= k < n ==> !AddsTo(cs, k, topic)
    ensures TopicSum(cs, topic, n) == 0.0
  {
    if n > 0 {
      assert !AddsTo(cs, n - 1, topic);
      NoAddsNoSum(cs, topic, n - 1);
    }
  }

  /** Scoring fails exactly when some mention fails; on success the keys
      are exactly the slugs some mention contributed to, and each total is
      the sum of that topic's amounts. */
  lemma TotalsAreSums(mentions: seq<Json>, cfg: Config)
    ensures Totals(mentions, cfg).Success? <==>
              forall k :: 0 <= k < |mentions| ==> MentionContribution(mentions[k], cfg).Success?
    ensures var cs := Contributions(mentions, cfg);
            Totals(mentions, cfg).Success? ==>
              && (forall topic :: topic in Totals(mentions, cfg).value <==>
                    exists k :: 0 <= k < |mentions| && AddsTo(cs, k, topic))
              && (forall topic :: topic in Totals(mentions, cfg).value ==>
                    Totals(mentions, cfg).value[topic] == TopicSum(cs, topic, |mentions|))
  {
    var cs := Contributions(mentions, cfg);
    FoldFails(cs, |mentions|);
    if Totals(mentions, cfg).Success? {
      FoldKeys(cs, |mentions|);
      FoldSums(cs, |mentions|);
    }
  }

  /** Every key of the totals is a slug. */
  lemma TotalsKeysAreSlugs(mentions: seq<Json>, cfg: Config)
    requires Totals(mentions, cfg).Success?
    ensures forall topic :: topic in Totals(mentions, cfg).value ==> IsSlug(topic)
  {
    var cs := Contributions(mentions, cfg);
    FoldKeys(cs, |mentions|);
    forall topic | topic in Totals(mentions, cfg).value ensures IsSlug(topic) {
      var k :| 0 <= k < |mentions| && AddsTo(cs, k, topic);
      ContributionTopic(mentions[k], cfg);
    }
  }

  /** Folding a prefix does not look past it. */
  lemma {:induction false} FoldPrefix(a: seq<Result<Contribution>>, b: seq<Result<Contribution>>, n: nat)
    requires n <= |a|
    ensures Fold(a + b, n) == Fold(a, n)
  {
    if n > 0 {
      FoldPrefix(a, b, n - 1);
      assert (a + b)[n - 1] == a[n - 1];
    }
  }

  /** A mention with neither `topic_id` nor `topic_label` (or only falsy
      ones) leaves the totals as they are. */
  lemma SkippedMention(mentions: seq<Json>, m: map<string, Json>, cfg: Config)
    requires TopicRef(m).None? || !Truthy(TopicRef(m).value)
    ensures Totals(mentions + [JObj(m)], cfg) == Totals(mentions, cfg)
  {
    var cs := Contributions(mentions, cfg);
    var skip := MentionContribution(JObj(m), cfg);
    assert skip == Success(Skip);
    ContributionsAppend(mentions, JObj(m), cfg);
    FoldSkip(cs + [skip], |mentions|);
    FoldPrefix(cs, [skip], |mentions|);
  }

  /** Appending a mention appends its contribution. */
  lemma ContributionsAppend(mentions: seq<Json>, m: Json, cfg: Config)
    ensures Contributions(mentions + [m], cfg) == Contributions(mentions, cfg) + [MentionContribution(m, cfg)]
  {
    assert forall k :: 0 <= k < |mentions| ==> (mentions + [m])[k] == mentions[k];
  }

  /** A skipped contribution leaves the fold as it was. */
  lemma FoldSkip(cs: seq<Result<Contribution>>, n: nat)
    requires n < |cs| && cs[n] == Success(Skip)
    ensures Fold(cs, n + 1) == Fold(cs, n)
  {
  }

  /** Once a contribution fails, every longer fold is that failure. */
  lemma {:induction false} FailureStays(cs: seq<Result<Contribution>>, n: nat, m: nat)
    requires n <= m <= |cs|
    requires Fold(cs, n).Failure?
    ensures Fold(cs, m) == Fold(cs, n)
    decreases m - n
  {
    if n < m {
      FailureStays(cs, n, m - 1);
    }
  }

  // ---------------------------------------------------------------------
  // The dict's order.

  /** The topics of the first `n` contributions in the order they first
      receive an amount: the insertion order of the `defaultdict`. */
  function FirstAdds(cs: seq<Result<Contribution>>, n: nat): seq<string>
    requires n <= |cs|
  {
    if n == 0 then []
    else
      var prev := FirstAdds(cs, n - 1);
      if cs[n - 1].Success? && cs[n - 1].value.Add? && cs[n - 1].value.topic !in prev
      then prev + [cs[n - 1].value.topic]
      else prev
  }

  /** The listed topics are exactly those some contribution adds to. */
  lemma {:induction false} FirstAddsMembers(cs: seq<Result<Contribution>>, n: nat)
    requires n <= |cs|
    ensures forall t :: t in FirstAdds(cs, n) <==> exists k :: 0 <= k < n && AddsTo(cs, k, t)
  {
    if n > 0 {
      FirstAddsMembers(cs, n - 1);
      forall t ensures t in FirstAdds(cs, n) <==> exists k :: 0 <= k < n && AddsTo(cs, k, t) {
        if t in FirstAdds(cs, n - 1) {
          var k :| 0 <= k < n - 1 && AddsTo(cs, k, t);
          assert AddsTo(cs, k, t);
        }
        if AddsTo(cs, n - 1, t) {
          assert t in FirstAdds(cs, n);
        }
      }
    } else {
      assert FirstAdds(cs, n) == [];
    }
  }

  /** Among the first `n` contributions, topic `a` receives an amount
      before topic `b` receives any. */
  ghost predicate AddedBefore(cs: seq<Result<Contribution>>, n: nat, a: string, b: string)
    requires n <= |cs|
  {
    exists k :: 0 <= k < n && AddsTo(cs, k, a) && forall l :: 0 <= l <= k ==> !AddsTo(cs, l, b)
  }

  /** Each topic is listed once, and a topic listed before another
      received an amount before the other received any. */
  lemma {:induction false} FirstAddsOrder(cs: seq<Result<Contribution>>, n: nat)
    requires n <= |cs|
    ensures forall i, j :: 0 <= i < j < |FirstAdds(cs, n)| ==> FirstAdds(cs, n)[i] != FirstAdds(cs, n)[j]
    ensures forall i, j :: 0 <= i < j < |FirstAdds(cs, n)| ==> AddedBefore(cs, n, FirstAdds(cs, n)[i], FirstAdds(cs, n)[j])
  {
    if n > 0 {
      FirstAddsOrder(cs, n - 1);
      FirstAddsMembers(cs, n - 1);
      var prev := FirstAdds(cs, n - 1);
      var f := FirstAdds(cs, n);
      forall i, j | 0 <= i < j < |prev| ensures AddedBefore(cs, n, prev[i], prev[j]) {
        assert AddedBefore(cs, n - 1, prev[i], prev[j]);
        var k :| 0 <= k < n - 1 && AddsTo(cs, k, prev[i]) && forall l :: 0 <= l <= k ==> !AddsTo(cs, l, prev[j]);
        assert AddsTo(cs, k, prev[i]);
      }
      if f != prev {
        var t := cs[n - 1].value.topic;
        assert f == prev + [t] && t !in prev;
        forall i | 0 <= i < |prev| ensures AddedBefore(cs, n, prev[i], t) {
          assert prev[i] in prev;
          var k :| 0 <= k < n - 1 && AddsTo(cs, k, prev[i]);
          assert forall l :: 0 <= l <= k ==> !AddsTo(cs, l, t);
        }
        forall i, j | 0 <= i < j < |f| ensures f[i] != f[j] && AddedBefore(cs, n, f[i], f[j]) {
          assert f[i] == prev[i];
          if j == |prev| {
            assert f[i] in prev && f[j] == t;
          } else {
            assert f[j] == prev[j];
          }
        }
      }
    } else {
      assert FirstAdds(cs, n) == [];
    }
  }

  /** When folding succeeds, the listed topics are exactly its keys. */
  lemma FirstAddsAreKeys(cs: seq<Result<Contribution>>, n: nat)
    requires n <= |cs|
    requires Fold(cs, n).Success?
    ensures forall t :: t in Fold(cs, n).value <==> t in FirstAdds(cs, n)
  {
    FoldKeys(cs, n);
    FirstAddsMembers(cs, n);
  }

  /** A dict: its items and their insertion order. */
  datatype ScoreDict = ScoreDict(totals: map<string, real>, order: seq<string>)

  /** The dict built from the contributions, or the first failure. */
  function DictOf(cs: seq<Result<Contribution>>): Result<ScoreDict> {
    var t := Fold(cs, |cs|);
    if t.Failure? then Failure(t.error) else Success(ScoreDict(t.value, FirstAdds(cs, |cs|)))
  }

  /** What score_mentions returns for the mentions under `cfg`. */
  function Scores(mentions: seq<Json>, cfg: Config): Result<ScoreDict> {
    DictOf(Contributions(mentions, cfg))
  }

  /** A sequence without repeats has as many distinct elements as it has
      elements. */
  lemma {:induction false} DistinctCard<T>(xs: seq<T>)
    requires forall i, j :: 0 <= i < j < |xs| ==> xs[i] != xs[j]
    ensures |set x | x in xs| == |xs|
  {
    if xs != [] {
      var init := xs[..|xs| - 1];
      DistinctCard(init);
      assert (set x | x in xs) == (set x | x in init) + {xs[|xs| - 1]};
    }
  }

  /** The dict built from successful contributions lists every key once,
      in order of first contribution. */
  lemma DictOrder(cs: seq<Result<Contribution>>)
    requires DictOf(cs).Success?
    ensures Fold(cs, |cs|).Success? && DictOf(cs).value.totals == Fold(cs, |cs|).value
    ensures var d := DictOf(cs).value;
            && (forall t :: t in d.order <==> t in d.totals)
            && (forall i, j :: 0 <= i < j < |d.order| ==> d.order[i] != d.order[j])
            && |d.order| == |d.totals|
    ensures var d := DictOf(cs).value;
            forall i, j :: 0 <= i < j < |d.order| ==> AddedBefore(cs, |cs|, d.order[i], d.order[j])
  {
    var d := DictOf(cs).value;
    FirstAddsAreKeys(cs, |cs|);
    FirstAddsOrder(cs, |cs|);
    DistinctCard(d.order);
    assert d.totals.Keys == set x | x in d.order;
  }

  /** The dict score_mentions builds holds the totals, and its order lists
      every topic of the totals once, in order of first contribution. */
  lemma ScoresOrder(mentions: seq<Json>, cfg: Config)
    requires Scores(mentions, cfg).Success?
    ensures Totals(mentions, cfg).Success? && Scores(mentions, cfg).value.totals == Totals(mentions, cfg).value
    ensures var d := Scores(mentions, cfg).value;
            && (forall t :: t in d.order <==> t in d.totals)
            && (forall i, j :: 0 <= i < j < |d.order| ==> d.order[i] != d.order[j])
            && |d.order| == |d.totals|
    ensures var d := Scores(mentions, cfg).value;
            var cs := Contributions(mentions, cfg);
            forall i, j :: 0 <= i < j < |d.order| ==> AddedBefore(cs, |mentions|, d.order[i], d.order[j])
  {
    DictOrder(Contributions(mentions, cfg));
  }

  /** `f` applied to each mention. */
  function Each(mentions: seq<Json>, f: Json -> Result<Contribution>): (cs: seq<Result<Contribution>>)
    ensures |cs| == |mentions|
    ensures forall k :: 0 <= k < |mentions| ==> cs[k] == f(mentions[k])
  {
    seq(|mentions|, k requires 0 <= k < |mentions| => f(mentions[k]))
  }

  /** score_mentions: `{}` for no mentions; otherwise the per-topic
      totals in first-contribution order under the weight tables, `now`
      and decay base it sets up, or the failure of the first mention that
      raises. */
  method ScoreMentions(mentions: seq<Json>, speakerWeights: Option<Json>, meetingTypeWeights: Option<Json>,
                       halfLifeDays: Option<real>, now: Option<Moment>, clock: real, py: Builtins)
    returns (r: Result<ScoreDict>)
    ensures mentions == [] ==> r == Success(ScoreDict(map[], []))
    ensures r == Scores(mentions, ScoringConfig(speakerWeights, meetingTypeWeights, halfLifeDays, now, clock, py))
  {
    if mentions == [] {
      return Success(ScoreDict(map[], []));
    }
    var sw := EffectiveWeights(speakerWeights, DefaultSpeakerWeights);
    var mw := EffectiveWeights(meetingTypeWeights, DefaultMeetingTypeWeights);
    var current := if now.Some? then now.value else Moment(true, clock);
    var perDay := PerDayDecay(halfLifeDays, py.pow);
    var cfg := Config(sw, mw, current, perDay, py);
    var contribute := (m: Json) => MentionContribution(m, cfg);
    r := ScoreAll(mentions, contribute);
    assert Each(mentions, contribute) == Contributions(mentions, cfg);
  }

  /** The loop of score_mentions: accumulate each mention's amount under
      its topic, stopping at the first mention that raises; a topic
      enters the dict's order when it first receives an amount. */
  method ScoreAll(mentions: seq<Json>, contribute: Json -> Result<Contribution>) returns (r: Result<ScoreDict>)
    ensures r == DictOf(Each(mentions, contribute))
  {
    ghost var cs := Each(mentions, contribute);
    var totals: map<string, real> := map[];
    var order: seq<string> := [];
    var i := 0;
    while i < |mentions|
      invariant 0 <= i <= |mentions|
      invariant Fold(cs, i) == Success(totals)
      invariant order == FirstAdds(cs, i)
    {
      var c := contribute(mentions[i]);
      if c.Failure? {
        FailureStays(cs, i + 1, |mentions|);
        return Failure(c.error);
      }
      if c.value.Add? {
        FirstAddsAreKeys(cs, i);
        if c.value.topic !in totals {
          order := order + [c.value.topic];
        }
        totals := Accumulate(totals, c.value.topic, c.value.amount);
      }
      i := i + 1;
    }
    return Success(ScoreDict(totals, order));
  }
}
