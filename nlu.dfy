/**
 * The language-understanding service: it keeps one Gemini model, falls back
 * through the other models in a fixed order of preference when a request
 * fails, and turns the model's JSON reply into a list of normalised events.
 *
 * The model library is not part of this model. Building a model for a name is
 * the oracle `buildError` (None when the model can be built, otherwise the
 * message it raised); asking the model for the prompt of the current request is
 * the oracle `generate` (the reply text, or the message it raised). `json.loads`
 * and the date parser are the oracles `loads` and `parseDate`.
 */
module Nlu {
  import opened Wrappers
  import opened Text
  import opened Time
  import opened JsonValues

  /** The Gemini models the service knows. */
  datatype ModelId = Gemini25Flash | Gemini15Flash | Gemini15Pro | GeminiPro

  /** The name the model library knows a model by. */
  function ModelName(m: ModelId): (name: string)
    ensures StartsWith(name, "gemini-")
  {
    match m
    case Gemini25Flash => "gemini-2.5-flash"
    case Gemini15Flash => "gemini-1.5-flash"
    case Gemini15Pro => "gemini-1.5-pro"
    case GeminiPro => "gemini-pro"
  }

  /** The models in order of preference. */
  const ModelPriorities: seq<ModelId> := [Gemini25Flash, Gemini15Flash, Gemini15Pro, GeminiPro]

  /** A model's place in the order of preference (`MODEL_PRIORITIES.index`). */
  function Priority(m: ModelId): (i: nat)
    ensures i < |ModelPriorities| && ModelPriorities[i] == m
  {
    match m
    case Gemini25Flash => 0
    case Gemini15Flash => 1
    case Gemini15Pro => 2
    case GeminiPro => 3
  }

  const CreateEventAction: string := "create_event"
  const DefaultDurationMinutes: int := 60
  const JsonFence: string := "```json"
  const Fence: string := "```"

  /** A `GenerativeModel` built for one of the models. */
  datatype Model = Model(id: ModelId)

  /** Why extracting events failed. */
  datatype NluError =
    | NoModelAvailable              // no model could be built before the request
    | AllModelsFailed(last: string) // every model failed; the last model's error
    | InvalidJson                   // the reply is not JSON
    | UnexpectedShape               // the reply is JSON but neither an object nor an array
    | NoEvents                      // no element of the reply is an object

  /** A field of a processed event: the decoded JSON value, or the parsed start time. */
  datatype Field = Value(json: Json) | Start(time: DateTime)

  /** A processed event: the dict the service returns. */
  type Event = map<string, Field>

  predicate Distinct<T(==)>(xs: seq<T>) {
    forall i, j :: 0 <= i < j < |xs| ==> xs[i] != xs[j]
  }

  /** The position of the first element of `xs` that satisfies `p`. */
  function FirstWhere<T>(xs: seq<T>, p: T -> bool): (k: Option<nat>)
    ensures k.Some? ==> k.value < |xs| && p(xs[k.value])
    ensures k.Some? ==> forall j :: 0 <= j < k.value ==> !p(xs[j])
    ensures k.None? ==> forall j :: 0 <= j < |xs| ==> !p(xs[j])
  {
    if xs == [] then None
    else if p(xs[0]) then Some(0)
    else match FirstWhere(xs[1..], p)
      case None => None
      case Some(k) => Some(k + 1)
  }

  /** `xs[i:] + xs[:i]`: position `k` holds the element `k` places after `i`, cyclically. */
  lemma RotateAt<T>(xs: seq<T>, i: nat, k: nat)
    requires i < |xs| && k < |xs|
    ensures |xs[i..] + xs[..i]| == |xs|
    ensures (xs[i..] + xs[..i])[k] == xs[(i + k) % |xs|]
  {
    var n := |xs|;
    if k < n - i {
      assert (xs[i..] + xs[..i])[k] == xs[i + k];
      ModBelow(i + k, n);
    } else {
      assert (xs[i..] + xs[..i])[k] == xs[i + k - n];
      ModWrap(i + k, n);
    }
  }

  lemma ModBelow(a: nat, n: nat)
    requires a < n
    ensures a % n == a
  {
  }

  lemma ModWrap(a: nat, n: nat)
    requires 0 < n <= a < 2 * n
    ensures a % n == a - n
  {
  }

  /**
   * The order in which a request tries the models: starting from the current
   * one and going round the list of preferences, or the plain list when there
   * is no current model.
   */
  function AttemptOrder(current: Option<ModelId>): (order: seq<ModelId>)
    ensures |order| == |ModelPriorities|
    ensures forall m :: m in order
    ensures current.None? ==> order == ModelPriorities
  {
    if current.Some? then
      var i := Priority(current.value);
      var order := ModelPriorities[i..] + ModelPriorities[..i];
      assert forall m :: m in order by {
        forall m ensures m in order {
          var p := Priority(m);
          if p >= i {
            assert order[p - i] == m;
          } else {
            assert order[|ModelPriorities| - i + p] == m;
          }
        }
      }
      order
    else
      assert forall m :: m in ModelPriorities by {
        forall m ensures m in ModelPriorities {
          assert ModelPriorities[Priority(m)] == m;
        }
      }
      ModelPriorities
  }

  /** Every attempt order is a permutation of the order of preference. */
  lemma AttemptOrderPermutation(current: Option<ModelId>)
    ensures multiset(AttemptOrder(current)) == multiset(ModelPriorities)
  {
    if current.Some? {
      var i := Priority(current.value);
      assert ModelPriorities == ModelPriorities[..i] + ModelPriorities[i..];
    }
  }

  /**
   * Starting from a current model, the attempt order tries that model first,
   * then the ones after it in order of preference, wrapping round, and never
   * tries a model twice.
   */
  lemma AttemptOrderFromCurrent(m: ModelId)
    ensures var order := AttemptOrder(Some(m));
      && |order| == |ModelPriorities| && order[0] == m && Distinct(order)
      && forall k :: 0 <= k < |order| ==>
           order[k] == ModelPriorities[(Priority(m) + k) % |ModelPriorities|]
  {
    var order := AttemptOrder(Some(m));
    var i := Priority(m);
    var n := |ModelPriorities|;
    forall k | 0 <= k < n
      ensures order[k] == ModelPriorities[(i + k) % n]
    {
      RotateAt(ModelPriorities, i, k);
    }
    forall a, b | 0 <= a < b < n
      ensures order[a] != order[b]
    {
      assert (i + a) % n != (i + b) % n;
    }
  }

  /** With `gemini-1.5-pro` current, the attempt order is pro, gemini-pro, then the two flash models. */
  lemma AttemptOrderExample()
    ensures AttemptOrder(Some(Gemini15Pro)) == [Gemini15Pro, GeminiPro, Gemini25Flash, Gemini15Flash]
  {
  }

  /** The first listed model that can be built, if any. */
  function FirstBuildable(buildError: ModelId -> Option<string>): (r: Option<ModelId>)
    ensures r.Some? ==> buildError(r.value).None?
    ensures r.Some? ==> forall j :: 0 <= j < Priority(r.value) ==> buildError(ModelPriorities[j]).Some?
    ensures r.None? <==> forall m :: buildError(m).Some?
  {
    var buildable := (m: ModelId) => buildError(m).None?;
    var k := FirstWhere(ModelPriorities, buildable);
    if k.Some? then
      Some(ModelPriorities[k.value])
    else
      assert forall m :: buildError(m).Some? by {
        forall m ensures buildError(m).Some? {
          assert !buildable(ModelPriorities[Priority(m)]);
        }
      }
      None
  }

  /**
   * What trying candidate `m` gives when `current` is the model in use: a
   * model other than the current one is built first; then the reply text, or
   * the message of what was raised.
   */
  function CandidateReply(m: ModelId, current: Option<ModelId>, buildError: ModelId -> Option<string>,
                          generate: ModelId -> Result<string, string>): (r: Result<string, string>)
    ensures r.Success? ==> r == generate(m)
    ensures current == Some(m) ==> r == generate(m)
    ensures r.Failure? ==> r == generate(m) || (current != Some(m) && buildError(m) == Some(r.error))
  {
    if Some(m) != current && buildError(m).Some? then Failure(buildError(m).value)
    else generate(m)
  }

  /** Whether candidate `m` answers. */
  function Answers(current: Option<ModelId>, buildError: ModelId -> Option<string>,
                   generate: ModelId -> Result<string, string>): ModelId -> bool
  {
    (m: ModelId) => CandidateReply(m, current, buildError, generate).Success?
  }

  /**
   * A request with fallback: the reply of the first candidate in attempt order
   * that succeeds, and the model in use afterwards (the one that answered, or
   * the unchanged current model when none did).
   */
  function Fallback(current: Option<ModelId>, buildError: ModelId -> Option<string>,
                    generate: ModelId -> Result<string, string>): (r: (Result<string, NluError>, Option<ModelId>))
    ensures r.0.Success? ==>
              && r.1.Some? && CandidateReply(r.1.value, current, buildError, generate).Success?
              && r.0.value == Strip(CandidateReply(r.1.value, current, buildError, generate).value)
    ensures r.0.Failure? ==>
              r.1 == current && r.0.error.AllModelsFailed?
              && forall m :: CandidateReply(m, current, buildError, generate).Failure?
  {
    var order := AttemptOrder(current);
    var answers := Answers(current, buildError, generate);
    var k := FirstWhere(order, answers);
    if k.Some? then
      (Success(Strip(CandidateReply(order[k.value], current, buildError, generate).value)), Some(order[k.value]))
    else
      assert forall m :: CandidateReply(m, current, buildError, generate).Failure? by {
        forall m ensures CandidateReply(m, current, buildError, generate).Failure? {
          assert m in order;
          var j :| 0 <= j < |order| && order[j] == m;
          assert !answers(order[j]);
        }
      }
      (Failure(AllModelsFailed(CandidateReply(order[|order| - 1], current, buildError, generate).error)), current)
  }

  /** When candidate `i` of the attempt order is the first to answer, its reply is the result and it becomes current. */
  lemma FallbackAnsweredBy(current: Option<ModelId>, buildError: ModelId -> Option<string>,
                           generate: ModelId -> Result<string, string>, i: nat)
    requires i < |AttemptOrder(current)|
    requires CandidateReply(AttemptOrder(current)[i], current, buildError, generate).Success?
    requires forall j :: 0 <= j < i ==> CandidateReply(AttemptOrder(current)[j], current, buildError, generate).Failure?
    ensures var m := AttemptOrder(current)[i];
      Fallback(current, buildError, generate) == (Success(Strip(CandidateReply(m, current, buildError, generate).value)), Some(m))
  {
    var order := AttemptOrder(current);
    var answers := Answers(current, buildError, generate);
    assert answers(order[i]);
    assert forall j :: 0 <= j < i ==> !answers(order[j]);
    assert FirstWhere(order, answers) == Some(i);
  }

  /** When no candidate answers, the last candidate's error is reported and the current model stays. */
  lemma FallbackUnanswered(current: Option<ModelId>, buildError: ModelId -> Option<string>,
                           generate: ModelId -> Result<string, string>)
    requires forall j :: 0 <= j < |AttemptOrder(current)| ==> CandidateReply(AttemptOrder(current)[j], current, buildError, generate).Failure?
    ensures var order := AttemptOrder(current);
      Fallback(current, buildError, generate)
        == (Failure(AllModelsFailed(CandidateReply(order[|order| - 1], current, buildError, generate).error)), current)
  {
    var order := AttemptOrder(current);
    var answers := Answers(current, buildError, generate);
    assert forall j :: 0 <= j < |order| ==> !answers(order[j]);
    assert FirstWhere(order, answers).None?;
  }

  /** A request succeeds exactly when some model, tried from the current state, answers. */
  lemma FallbackSucceedsIff(current: Option<ModelId>, buildError: ModelId -> Option<string>,
                            generate: ModelId -> Result<string, string>)
    ensures Fallback(current, buildError, generate).0.Success?
        <==> exists m :: CandidateReply(m, current, buildError, generate).Success?
  {
    var r := Fallback(current, buildError, generate);
    if r.0.Success? {
      assert CandidateReply(r.1.value, current, buildError, generate).Success?;
    }
  }

  /**
   * The answering model is the first one in attempt order that answers: every
   * model tried before it failed.
   */
  lemma FallbackPicksFirstSuccess(current: Option<ModelId>, buildError: ModelId -> Option<string>,
                                  generate: ModelId -> Result<string, string>)
    ensures var r := Fallback(current, buildError, generate); var order := AttemptOrder(current);
      r.0.Success? ==>
        exists k :: 0 <= k < |order| && order[k] == r.1.value
          && forall j :: 0 <= j < k ==> CandidateReply(order[j], current, buildError, generate).Failure?
  {
    var order := AttemptOrder(current);
    var k := FirstWhere(order, Answers(current, buildError, generate));
    if k.Some? {
      assert order[k.value] == Fallback(current, buildError, generate).1.value;
    }
  }

  /** A working current model keeps being used: its stripped reply is returned and nothing switches. */
  lemma FallbackKeepsWorkingModel(m: ModelId, buildError: ModelId -> Option<string>,
                                  generate: ModelId -> Result<string, string>)
    requires generate(m).Success?
    ensures Fallback(Some(m), buildError, generate) == (Success(Strip(generate(m).value)), Some(m))
  {
    AttemptOrderFromCurrent(m);
    var order := AttemptOrder(Some(m));
    var answers := Answers(Some(m), buildError, generate);
    assert answers(order[0]);
    assert FirstWhere(order, answers) == Some(0);
  }

  /** What `json.loads` returned, with markdown code fences and surrounding whitespace removed first. */
  function StripFences(text: string): (r: string)
    ensures r == [] || (!IsSpace(r[0]) && !IsSpace(r[|r| - 1]))
  {
    var a := if StartsWith(text, JsonFence) then text[|JsonFence|..] else text;
    var b := if StartsWith(a, Fence) then a[|Fence|..] else a;
    var c := if EndsWith(b, Fence) then b[..|b| - |Fence|] else b;
    StripIdempotent(c);
    Strip(c)
  }

  /** A reply without fences is only stripped. */
  lemma StripFencesPlain(text: string)
    requires !StartsWith(text, Fence) && !EndsWith(text, Fence)
    ensures StripFences(text) == Strip(text)
  {
    if |text| >= |JsonFence| {
      assert text[..3] == text[..7][..3];
    }
  }

  /** A ```json block gives back its body, stripped. */
  lemma StripFencesJsonBlock(body: string)
    requires body == [] || body[0] != '`'
    ensures StripFences(JsonFence + body + Fence) == Strip(body)
  {
    var text := JsonFence + body + Fence;
    assert StartsWith(text, JsonFence) by {
      assert text[..|JsonFence|] == JsonFence;
    }
    var a := text[|JsonFence|..];
    assert a == body + Fence;
    if body == [] {
      assert StartsWith(a, Fence) && a[|Fence|..] == [];
    } else {
      assert !StartsWith(a, Fence) by {
        assert a[0] == body[0] != Fence[0];
        assert |a| < |Fence| || a[..|Fence|][0] == a[0];
      }
      assert EndsWith(a, Fence) by {
        assert a[|a| - |Fence|..] == Fence;
      }
      assert a[..|a| - |Fence|] == body;
    }
  }

  /** A bare ``` block gives back its body, stripped, unless the body itself starts with `json`. */
  lemma StripFencesBareBlock(body: string)
    requires !StartsWith(body, "json")
    ensures StripFences(Fence + body + Fence) == Strip(body)
  {
    var text := Fence + body + Fence;
    assert !StartsWith(text, JsonFence) by {
      if |body| >= 4 {
        assert text[3..7] == body[..4];
      } else {
        assert text[3 + |body|] == '`';
      }
    }
    assert StartsWith(text, Fence) by {
      assert text[..3] == Fence;
    }
    var b := text[3..];
    assert b == body + Fence;
    assert EndsWith(b, Fence) by {
      assert b[|b| - 3..] == Fence;
    }
    assert b[..|b| - 3] == body;
  }

  /**
   * The start time stored for a `start_datetime` value: the parsed time, put
   * in the configured zone when it has none, or one day from now when the
   * value is not a date string.
   */
  function StartTime(raw: Json, parseDate: string -> Option<DateTime>, now: int, zone: int): (t: DateTime)
    ensures Aware(t)
    ensures raw.JString? && parseDate(raw.s).Some? && Aware(parseDate(raw.s).value) ==> t == parseDate(raw.s).value
    ensures raw.JString? && parseDate(raw.s).Some? && !Aware(parseDate(raw.s).value) ==>
      t.wall == parseDate(raw.s).value.wall && t.offset == Some(zone)
    ensures !(raw.JString? && parseDate(raw.s).Some?) ==> t == Plus(DateTime(now, Some(zone)), DaySeconds)
  {
    match raw
    case JString(s) =>
      (match parseDate(s)
       case Some(dt) => if Aware(dt) then dt else Localize(dt, zone)
       case None => Plus(DateTime(now, Some(zone)), DaySeconds))
    case _ => Plus(DateTime(now, Some(zone)), DaySeconds)
  }

  /** Every processed event names an action, a duration and a description, and its start, if any, is aware. */
  predicate Normalized(e: Event) {
    && "action" in e && "duration_minutes" in e && "description" in e
    && ("start_datetime" in e ==> e["start_datetime"].Start? && Aware(e["start_datetime"].time))
  }

  /**
   * One event object of the reply, processed: its fields are kept, its
   * `start_datetime` becomes a start time, and action, duration and
   * description get their defaults only where they are missing.
   */
  function NormalizeEvent(fields: map<string, Json>, parseDate: string -> Option<DateTime>,
                          now: int, zone: int): (e: Event)
    ensures Normalized(e)
    ensures e.Keys == fields.Keys + {"action", "duration_minutes", "description"}
    ensures forall k :: k in fields && k != "start_datetime" ==> e[k] == Value(fields[k])
    ensures "start_datetime" in fields ==> e["start_datetime"] == Start(StartTime(fields["start_datetime"], parseDate, now, zone))
    ensures "action" !in fields ==> e["action"] == Value(JString(CreateEventAction))
    ensures "duration_minutes" !in fields ==> e["duration_minutes"] == Value(JNumber(DefaultDurationMinutes))
    ensures "description" !in fields ==> e["description"] == Value(JNull)
  {
    var kept := map k | k in fields :: Value(fields[k]);
    var timed := if "start_datetime" in fields
      then kept["start_datetime" := Start(StartTime(fields["start_datetime"], parseDate, now, zone))]
      else kept;
    var withAction := if "action" in timed then timed else timed["action" := Value(JString(CreateEventAction))];
    var withDuration := if "duration_minutes" in withAction then withAction
      else withAction["duration_minutes" := Value(JNumber(DefaultDurationMinutes))];
    if "description" in withDuration then withDuration else withDuration["description" := Value(JNull)]
  }

  /** The objects among the reply's elements, in order; other elements are skipped. */
  function Objects(items: seq<Json>): (objs: seq<map<string, Json>>)
    ensures |objs| <= |items|
  {
    if items == [] then []
    else
      var init := Objects(items[..|items| - 1]);
      match items[|items| - 1]
      case JObject(f) => init + [f]
      case _ => init
  }

  /** An object is kept exactly when it is an element of the reply. */
  lemma {:induction false} ObjectsMembers(items: seq<Json>, f: map<string, Json>)
    ensures f in Objects(items) <==> JObject(f) in items
  {
    if items != [] {
      var init := items[..|items| - 1];
      ObjectsMembers(init, f);
      assert items == init + [items[|items| - 1]];
    }
  }

  /** A single element contributes its fields when it is an object, and nothing otherwise. */
  lemma ObjectsSingle(v: Json)
    ensures Objects([v]) == if v.JObject? then [v.fields] else []
  {
    assert [v][..0] == [];
  }

  /**
   * The objects of two stretches of the reply are those of the first followed
   * by those of the second: the kept objects stay in order, each as often as
   * it occurs.
   */
  lemma {:induction false} ObjectsAppend(a: seq<Json>, b: seq<Json>)
    ensures Objects(a + b) == Objects(a) + Objects(b)
    decreases |b|
  {
    if b == [] {
      assert a + b == a;
    } else {
      var init := b[..|b| - 1];
      ObjectsAppend(a, init);
      assert (a + b)[..|a + b| - 1] == a + init;
      assert (a + b)[|a + b| - 1] == b[|b| - 1];
    }
  }

  /** Every element of the reply, processed in order, skipping the elements that are not objects. */
  function NormalizeAll(items: seq<Json>, parseDate: string -> Option<DateTime>, now: int, zone: int): (events: seq<Event>)
    ensures |events| == |Objects(items)|
    ensures forall k :: 0 <= k < |events| ==> events[k] == NormalizeEvent(Objects(items)[k], parseDate, now, zone)
  {
    if items == [] then []
    else
      var init := NormalizeAll(items[..|items| - 1], parseDate, now, zone);
      match items[|items| - 1]
      case JObject(f) => init + [NormalizeEvent(f, parseDate, now, zone)]
      case _ => init
  }

  /** Processing one more element appends its event when it is an object, and nothing otherwise. */
  lemma NormalizeAllStep(items: seq<Json>, i: nat, parseDate: string -> Option<DateTime>, now: int, zone: int)
    requires i < |items|
    ensures items[i].JObject? ==>
              (NormalizeAll(items[..i + 1], parseDate, now, zone)
               == NormalizeAll(items[..i], parseDate, now, zone) + [NormalizeEvent(items[i].fields, parseDate, now, zone)])
    ensures !items[i].JObject? ==> NormalizeAll(items[..i + 1], parseDate, now, zone) == NormalizeAll(items[..i], parseDate, now, zone)
  {
    assert items[..i + 1][..i] == items[..i];
  }

  /** What the service makes of the model's reply text. */
  function InterpretReply(text: string, loads: string -> Option<Json>, parseDate: string -> Option<DateTime>,
                          now: int, zone: int): (r: Result<seq<Event>, NluError>)
    ensures r.Success? ==> r.value != [] && forall k :: 0 <= k < |r.value| ==> Normalized(r.value[k])
    ensures r.Failure? ==> r.error in {InvalidJson, UnexpectedShape, NoEvents}
  {
    match loads(StripFences(text))
    case None => Failure(InvalidJson)
    case Some(v) =>
      if v.JArray? || v.JObject? then
        var events := NormalizeAll(if v.JArray? then v.items else [v], parseDate, now, zone);
        if events == [] then Failure(NoEvents) else Success(events)
      else Failure(UnexpectedShape)
  }

  /** A single JSON object is one event. */
  lemma InterpretSingleObject(text: string, loads: string -> Option<Json>, parseDate: string -> Option<DateTime>,
                              now: int, zone: int, fields: map<string, Json>)
    requires loads(StripFences(text)) == Some(JObject(fields))
    ensures InterpretReply(text, loads, parseDate, now, zone) == Success([NormalizeEvent(fields, parseDate, now, zone)])
  {
    var items := [JObject(fields)];
    assert Objects(items) == [fields] by {
      assert items[..0] == [];
    }
    var events := NormalizeAll(items, parseDate, now, zone);
    assert |events| == 1 && events[0] == NormalizeEvent(fields, parseDate, now, zone);
    assert events == [NormalizeEvent(fields, parseDate, now, zone)];
  }

  /**
   * A JSON array gives one event per object element, in order; an array with
   * no object in it is refused.
   */
  lemma InterpretArray(text: string, loads: string -> Option<Json>, parseDate: string -> Option<DateTime>,
                       now: int, zone: int, items: seq<Json>)
    requires loads(StripFences(text)) == Some(JArray(items))
    ensures var r := InterpretReply(text, loads, parseDate, now, zone);
      && (r.Failure? <==> forall f :: JObject(f) !in items)
      && (r.Failure? ==> r.error == NoEvents)
      && (r.Success? ==>
            && |r.value| == |Objects(items)|
            && forall k :: 0 <= k < |r.value| ==> r.value[k] == NormalizeEvent(Objects(items)[k], parseDate, now, zone))
  {
    var r := InterpretReply(text, loads, parseDate, now, zone);
    if r.Failure? {
      forall f ensures JObject(f) !in items {
        ObjectsMembers(items, f);
      }
    } else {
      var f := Objects(items)[0];
      ObjectsMembers(items, f);
    }
  }

  /** Text that is not JSON, or JSON that is neither an object nor an array, is refused. */
  lemma InterpretRefused(text: string, loads: string -> Option<Json>, parseDate: string -> Option<DateTime>,
                         now: int, zone: int)
    requires loads(StripFences(text)).None? || !(loads(StripFences(text)).value.JArray? || loads(StripFences(text)).value.JObject?)
    ensures InterpretReply(text, loads, parseDate, now, zone)
         == (if loads(StripFences(text)).None? then Failure(InvalidJson) else Failure(UnexpectedShape))
  {
  }

  /**
   * A whole extraction, from the model name in use: make sure a model is
   * there, ask with fallback, and interpret the reply. The second component
   * is the model in use afterwards.
   */
  function Extract(current: Option<ModelId>, buildError: ModelId -> Option<string>,
                   generate: ModelId -> Result<string, string>, loads: string -> Option<Json>,
                   parseDate: string -> Option<DateTime>, now: int, zone: int): (r: (Result<seq<Event>, NluError>, Option<ModelId>))
    ensures r.0 == Failure(NoModelAvailable) <==> current.None? && FirstBuildable(buildError).None?
    ensures r.1.None? <==> r.0 == Failure(NoModelAvailable)
    ensures r.0.Success? ==> r.0.value != [] && forall k :: 0 <= k < |r.0.value| ==> Normalized(r.0.value[k])
  {
    var init := if current.Some? then current else FirstBuildable(buildError);
    if init.None? then (Failure(NoModelAvailable), None)
    else
      var (reply, winner) := Fallback(init, buildError, generate);
      if reply.Failure? then (Failure(reply.error), winner)
      else
        (InterpretReply(reply.value, loads, parseDate, now, zone), winner)
  }

  /**
   * With a model to start from, an extraction is the fallback request from
   * it: its failure is passed on, its reply is interpreted, and the model it
   * leaves in use is the one in use afterwards.
   */
  lemma ExtractComposes(current: Option<ModelId>, buildError: ModelId -> Option<string>,
                        generate: ModelId -> Result<string, string>, loads: string -> Option<Json>,
                        parseDate: string -> Option<DateTime>, now: int, zone: int)
    requires current.Some? || FirstBuildable(buildError).Some?
    ensures var init := if current.Some? then current else FirstBuildable(buildError);
      var fallback := Fallback(init, buildError, generate);
      var r := Extract(current, buildError, generate, loads, parseDate, now, zone);
      && r.1 == fallback.1
      && (fallback.0.Failure? ==> r.0 == Failure(fallback.0.error) && r.0.error.AllModelsFailed?)
      && (fallback.0.Success? ==> r.0 == InterpretReply(fallback.0.value, loads, parseDate, now, zone))
  {
  }

  /** The service and the Gemini model it currently uses. */
  class NluService {
    var model: Option<Model>
    var modelName: Option<ModelId>
    /** UTC offset, in seconds, of the configured time zone. */
    const zone: int

    /** A model is kept exactly when its name is, and it is the model of that name. */
    ghost predicate Valid()
      reads this
    {
      && (model.Some? <==> modelName.Some?)
      && (modelName.Some? ==> model.value.id == modelName.value)
    }

    /** A new service starts with the first listed model that can be built, or with none. */
    constructor (zone: int, buildError: ModelId -> Option<string>)
      ensures Valid() && this.zone == zone
      ensures modelName == FirstBuildable(buildError)
    {
      this.zone := zone;
      model := None;
      modelName := None;
      new;
      InitializeModel(buildError);
    }

    /** Builds the first listed model that can be built; with none, no model is kept. */
    method InitializeModel(buildError: ModelId -> Option<string>)
      modifies this
      ensures Valid()
      ensures modelName == FirstBuildable(buildError)
    {
      var i := 0;
      while i < |ModelPriorities|
        invariant 0 <= i <= |ModelPriorities|
        invariant forall j :: 0 <= j < i ==> buildError(ModelPriorities[j]).Some?
      {
        var name := ModelPriorities[i];
        if buildError(name).None? {
          model, modelName := Some(Model(name)), Some(name);
          return;
        }
        i := i + 1;
      }
      model, modelName := None, None;
    }

    /** Keeps the current model, or builds one; fails when no listed model can be built. */
    method EnsureModelInitialized(buildError: ModelId -> Option<string>) returns (r: Result<(), NluError>)
      requires Valid()
      modifies this
      ensures Valid()
      ensures modelName == (if old(modelName).Some? then old(modelName) else FirstBuildable(buildError))
      ensures r.Success? <==> modelName.Some?
      ensures r.Failure? ==> r.error == NoModelAvailable
    {
      if model.Some? {
        return Success(());
      }
      InitializeModel(buildError);
      if model.None? {
        return Failure(NoModelAvailable);
      }
      return Success(());
    }

    /**
     * One candidate of the fallback: a model other than the current one is
     * built first, and a model that answers becomes the current one.
     */
    method Attempt(name: ModelId, ghost current: Option<ModelId>, buildError: ModelId -> Option<string>,
                   generate: ModelId -> Result<string, string>)
      returns (reply: Result<string, string>)
      requires Valid() && modelName == current
      modifies this
      ensures Valid()
      ensures reply == CandidateReply(name, current, buildError, generate)
      ensures reply.Success? ==> modelName == Some(name)
      ensures reply.Failure? ==> model == old(model) && modelName == current
    {
      var buildFailure := if Some(name) != modelName then buildError(name) else None;
      if buildFailure.Some? {
        return Failure(buildFailure.value);
      }
      var handle := if Some(name) != modelName then Model(name) else model.value;
      reply := generate(handle.id);
      if reply.Success? && Some(name) != modelName {
        model, modelName := Some(handle), Some(name);
      }
    }

    /**
     * Sends the request to the current model, falling back to the next models
     * in order of preference; the first model that answers becomes the
     * current one. `attempts` lists the models tried, in order.
     */
    method TryModelsWithFallback(buildError: ModelId -> Option<string>, generate: ModelId -> Result<string, string>)
      returns (r: Result<string, NluError>, attempts: seq<ModelId>)
      requires Valid()
      modifies this
      ensures Valid()
      ensures (r, modelName) == Fallback(old(modelName), buildError, generate)
      ensures 1 <= |attempts| <= |ModelPriorities| && attempts == AttemptOrder(old(modelName))[..|attempts|]
      ensures r.Success? ==> attempts[|attempts| - 1] == modelName.value
      ensures r.Failure? ==> attempts == AttemptOrder(old(modelName))
    {
      var current := modelName;
      var order := AttemptOrder(current);
      attempts := [];
      var lastError := "";
      var i := 0;
      while i < |order|
        invariant 0 <= i <= |order|
        invariant attempts == order[..i]
        invariant forall j :: 0 <= j < i ==> CandidateReply(order[j], current, buildError, generate).Failure?
        invariant model == old(model) && modelName == current
        invariant i > 0 ==> lastError == CandidateReply(order[i - 1], current, buildError, generate).error
      {
        var name := order[i];
        attempts := attempts + [name];
        var reply := Attempt(name, current, buildError, generate);
        if reply.Success? {
          FallbackAnsweredBy(current, buildError, generate, i);
          var text := Strip(reply.value);
          assert attempts == order[..i + 1];
          return Success(text), attempts;
        }
        lastError := reply.error;
        i := i + 1;
      }
      FallbackUnanswered(current, buildError, generate);
      assert order[..|order|] == order;
      return Failure(AllModelsFailed(lastError)), attempts;
    }

    /** The reply's elements processed in order; elements that are not objects are skipped. */
    method ProcessEvents(items: seq<Json>, parseDate: string -> Option<DateTime>, now: int)
      returns (processed: seq<Event>)
      ensures processed == NormalizeAll(items, parseDate, now, zone)
    {
      processed := [];
      var i := 0;
      while i < |items|
        invariant 0 <= i <= |items|
        invariant processed == NormalizeAll(items[..i], parseDate, now, zone)
      {
        NormalizeAllStep(items, i, parseDate, now, zone);
        match items[i] {
          case JObject(fields) =>
            processed := processed + [NormalizeEvent(fields, parseDate, now, zone)];
          case _ =>
        }
        i := i + 1;
      }
      assert items[..|items|] == items;
    }

    /**
     * The events in the model's reply: code fences removed, the text read as
     * JSON; an object is one event, an array one event per object element.
     */
    method ParseReply(text: string, loads: string -> Option<Json>, parseDate: string -> Option<DateTime>, now: int)
      returns (r: Result<seq<Event>, NluError>)
      ensures r == InterpretReply(text, loads, parseDate, now, zone)
    {
      var parsed := loads(StripFences(text));
      if parsed.None? {
        return Failure(InvalidJson);
      }
      var items: seq<Json>;
      match parsed.value {
        case JArray(elements) => items := elements;
        case JObject(_) => items := [parsed.value];
        case _ => return Failure(UnexpectedShape);
      }
      var processed := ProcessEvents(items, parseDate, now);
      if processed == [] {
        return Failure(NoEvents);
      }
      return Success(processed);
    }

    /**
     * Extracts the events of one request: makes sure a model is there, asks
     * with fallback and parses the reply; `now` is the wall-clock reading in
     * the configured zone.
     */
    method ExtractEventInfo(buildError: ModelId -> Option<string>, generate: ModelId -> Result<string, string>,
                            loads: string -> Option<Json>, parseDate: string -> Option<DateTime>, now: int)
      returns (r: Result<seq<Event>, NluError>)
      requires Valid()
      modifies this
      ensures Valid()
      ensures (r, modelName) == Extract(old(modelName), buildError, generate, loads, parseDate, now, zone)
    {
      var ready := EnsureModelInitialized(buildError);
      if ready.Failure? {
        return Failure(ready.error);
      }
      var reply, _ := TryModelsWithFallback(buildError, generate);
      if reply.Failure? {
        return Failure(reply.error);
      }
      r := ParseReply(reply.value, loads, parseDate, now);
    }
  }
}
