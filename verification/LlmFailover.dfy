/**
 Provider failover of src/_core/llm.ts: the order of providers, the retries of one request, and
 the loop over a provider list that grows while it is walked.
 */
module LlmFailover {
  import opened Wrappers

  datatype Provider = Provider(id: string, defaultModel: string, connection: string)

  // ----- the order of providers -----

  function FirstMatch(list: seq<Provider>, id: string): (r: Option<nat>)
    ensures r.Some? ==> r.value < |list| && list[r.value].id == id && forall k :: 0 <= k < r.value ==> list[k].id != id
    ensures r.None? ==> forall k :: 0 <= k < |list| ==> list[k].id != id
  {
    if list == [] then None
    else if list[0].id == id then Some(0)
    else
      var r := FirstMatch(list[1..], id);
      assert forall k :: 1 <= k < |list| ==> list[1..][k - 1] == list[k];
      if r.Some? then Some(r.value + 1) else None
  }

  /** The list starting from the given index, wrapped around. */
  function Rotated(list: seq<Provider>, start: Option<int>): seq<Provider> {
    if list == [] || start.None? || start.value <= 0 then list
    else list[start.value % |list|..] + list[..start.value % |list|]
  }

  /** The first provider of the preferred id moved to the front. */
  function Preferred(list: seq<Provider>, id: Option<string>): seq<Provider> {
    if id.None? || id.value == "" || FirstMatch(list, id.value).None? then list
    else
      var k := FirstMatch(list, id.value).value;
      [list[k]] + list[..k] + list[k + 1..]
  }

  method OrderProviders(providers: seq<Provider>, preferred: Option<string>, start: Option<int>)
    returns (list: seq<Provider>)
    ensures list == Preferred(Rotated(providers, start), preferred)
  {
    hide FirstMatch, Preferred;
    PreferredOfNone(preferred);
    if |providers| == 0 {
      return providers;
    }
    list := providers;
    if start.Some? && start.value > 0 {
      var n := |list|;
      var i := ((start.value % n) + n) % n;
      WrapsAround(start.value % n, n);
      list := list[i..] + list[..i];
    }
    assert list == Rotated(providers, start);
    PreferredMeans(list, preferred);
    if preferred.Some? && preferred.value != "" {
      var found := FirstMatch(list, preferred.value);
      if found.Some? && found.value > 0 {
        var hit := list[found.value];
        list := list[..found.value] + list[found.value + 1..];
        list := [hit] + list;
      }
    }
  }

  lemma PreferredOfNone(id: Option<string>)
    ensures Preferred([], id) == []
  {
  }

  lemma PreferredMeans(list: seq<Provider>, id: Option<string>)
    ensures Preferred(list, id) ==
            if id.None? || id.value == "" || FirstMatch(list, id.value).None? then list
            else
              var k := FirstMatch(list, id.value).value;
              [list[k]] + (list[..k] + list[k + 1..])
    ensures id.Some? && id.value != "" && FirstMatch(list, id.value) == Some(0) ==> Preferred(list, id) == list
  {
    hide FirstMatch;
  }

  lemma WrapsAround(x: int, n: int)
    requires 0 <= x < n
    ensures (x + n) % n == x
  {
    var q, r := (x + n) / n, (x + n) % n;
    assert (q - 1) * n == x - r;
  }

  /** Ordering loses and repeats no provider, and a preferred provider comes first. */
  lemma OrderIsPermutation(providers: seq<Provider>, preferred: Option<string>, start: Option<int>)
    ensures var list := Preferred(Rotated(providers, start), preferred);
            && multiset(list) == multiset(providers)
            && (preferred.Some? && preferred.value != "" && (exists p :: p in providers && p.id == preferred.value) ==>
                  |list| > 0 && list[0].id == preferred.value)
  {
    var rotated := Rotated(providers, start);
    RotatedSame(providers, start);
    PreferredSame(rotated, preferred);
    if preferred.Some? && preferred.value != "" && exists p :: p in providers && p.id == preferred.value {
      var p :| p in providers && p.id == preferred.value;
      assert p in multiset(rotated);
      assert p in rotated;
    }
  }

  lemma RotatedSame(list: seq<Provider>, start: Option<int>)
    ensures multiset(Rotated(list, start)) == multiset(list)
  {
    if list != [] && start.Some? && start.value > 0 {
      var i := start.value % |list|;
      assert list == list[..i] + list[i..];
    }
  }

  lemma PreferredSame(list: seq<Provider>, id: Option<string>)
    ensures multiset(Preferred(list, id)) == multiset(list)
  {
    if id.Some? && id.value != "" && FirstMatch(list, id.value).Some? {
      var k := FirstMatch(list, id.value).value;
      assert list == list[..k] + [list[k]] + list[k + 1..];
    }
  }

  /** Without a preferred provider the k-th one is k places after the start, wrapped around. */
  lemma OrderAt(providers: seq<Provider>, start: nat, k: nat)
    requires k < |providers|
    ensures Rotated(providers, Some(start))[k] == providers[(start + k) % |providers|]
  {
    hide Rotated;
    var i := start % |providers|;
    SumModulo(start, k, |providers|);
    RotatedIs(providers, start, i);
    RotatedIndex(providers, i, k);
  }

  lemma RotatedIs(providers: seq<Provider>, start: nat, i: nat)
    requires providers != [] && i == start % |providers|
    ensures Rotated(providers, Some(start)) == providers[i..] + providers[..i]
  {
    if start == 0 {
      assert i == 0;
      assert providers[0..] + providers[..0] == providers;
    }
  }

  lemma RotatedIndex(providers: seq<Provider>, i: nat, k: nat)
    requires i <= |providers| && k < |providers|
    ensures (providers[i..] + providers[..i])[k]
            == if i + k < |providers| then providers[i + k] else providers[i + k - |providers|]
  {
  }

  lemma SumModulo(a: nat, b: nat, n: nat)
    requires b < n
    ensures (a + b) % n == if a % n + b < n then a % n + b else a % n + b - n
  {
    var q := a / n;
    assert a == q * n + a % n;
    if a % n + b < n {
      RemainderIs(a + b, n, q, a % n + b);
    } else {
      assert (q + 1) * n == q * n + n;
      RemainderIs(a + b, n, q + 1, a % n + b - n);
    }
  }

  lemma RemainderIs(x: nat, n: nat, q: int, r: int)
    requires 0 <= r < n && x == q * n + r
    ensures x % n == r
  {
    var d := x / n - q;
    assert d * n == r - x % n;
    TimesAtLeast(d, n);
  }

  lemma TimesAtLeast(d: int, n: int)
    requires n > 0
    ensures d >= 1 ==> d * n >= n
    ensures d <= -1 ==> d * n <= -n
  {
  }

  /** The first provider of the preferred id comes first; all others keep their order behind it. */
  lemma PreferredAt(list: seq<Provider>, id: string, f: nat, k: nat)
    requires id != "" && f < |list| && list[f].id == id && (forall j :: 0 <= j < f ==> list[j].id != id)
    requires k < |list|
    ensures var r := Preferred(list, Some(id));
            |r| == |list| && r[k] == if k == 0 then list[f] else if k <= f then list[k - 1] else list[k]
  {
    var found := FirstMatch(list, id);
    assert found.Some? && found.value == f;
  }

  // ----- one request with retries -----

  const RETRY_MAX_RETRIES := 4

  /** How reading the body of an answer goes, as JSON or, for an error, as text. */
  datatype Body = Readable | Unreadable | BodyAborted

  /** What an attempt meets: an answer, with the retry policy's verdict on its waiting time, or none. */
  datatype Reply =
    | Response(status: int, waitable: bool, body: Body)
    | NetworkError
    | AbortedBefore
    | AbortedDuring

  /** An unreadable body counts as no answer, whatever the status, but is not asked for again. */
  datatype Outcome = Answered(status: int) | NoAnswer | Aborted

  predicate IsOk(status: int) {
    200 <= status <= 299
  }

  /** Overload: timeouts, rate limits and server errors. */
  predicate Overloaded(status: int) {
    status == 408 || status == 429 || 500 <= status <= 599
  }

  /** The attempt is followed by another one, if any is left. */
  predicate Retried(reply: Reply) {
    reply.NetworkError? || (reply.Response? && !IsOk(reply.status) && Overloaded(reply.status) && reply.waitable)
  }

  function OutcomeOf(reply: Reply): Outcome {
    match reply
    case Response(status, _, Readable) => Answered(status)
    case Response(_, _, Unreadable) => NoAnswer
    case Response(_, _, BodyAborted) => Aborted
    case NetworkError => NoAnswer
    case _ => Aborted
  }

  /** The attempt that decides the outcome. */
  function Deciding(replies: nat -> Reply, attempt: nat): (k: nat)
    requires attempt <= RETRY_MAX_RETRIES
    ensures attempt <= k <= RETRY_MAX_RETRIES
    ensures k == RETRY_MAX_RETRIES || !Retried(replies(k))
    ensures forall j :: attempt <= j < k ==> Retried(replies(j))
    decreases RETRY_MAX_RETRIES - attempt
  {
    if attempt == RETRY_MAX_RETRIES || !Retried(replies(attempt)) then attempt else Deciding(replies, attempt + 1)
  }

  /** An abort noticed before an attempt sends no request for it. */
  function Requests(replies: nat -> Reply): (n: nat)
    ensures n <= RETRY_MAX_RETRIES + 1
  {
    var k := Deciding(replies, 0);
    if replies(k).AbortedBefore? then k else k + 1
  }

  /** Hands back an answer with its body still unread, or how the last attempt failed. */
  method FetchWithBackoff(replies: nat -> Reply) returns (reply: Reply, requests: nat)
    ensures reply == replies(Deciding(replies, 0))
    ensures requests == Requests(replies)
  {
    requests := 0;
    reply := NetworkError;
    for attempt := 0 to RETRY_MAX_RETRIES + 1
      invariant requests == attempt
      invariant attempt <= RETRY_MAX_RETRIES ==> Deciding(replies, 0) == Deciding(replies, attempt)
      invariant attempt <= RETRY_MAX_RETRIES
    {
      reply := replies(attempt);
      if reply.AbortedBefore? {
        return reply, requests;
      }
      requests := requests + 1;
      match reply
      case Response(status, waitable, _) =>
        if IsOk(status) || attempt == RETRY_MAX_RETRIES {
          return reply, requests;
        }
        if !(Overloaded(status) && waitable) {
          return reply, requests;
        }
      case AbortedDuring =>
        return reply, requests;
      case NetworkError =>
        if attempt == RETRY_MAX_RETRIES {
          return reply, requests;
        }
    }
  }

  // ----- the loop over the providers -----

  const FREE_MODELS := ["gemini-3.1-flash-lite", "gemini-3.5-flash-lite"]

  /** A list entry; fallback entries were inserted by the loop. */
  datatype Entry = Entry(provider: Provider, fallback: bool)

  datatype Call = Call(explicitModel: string, allowModelFallback: bool, chatModel: string, replies: (nat, nat) -> Reply)

  /** How the call ends: a parsed result, one provider's refusal, every provider failed, or an abort. */
  datatype Ending = Success | Refused(status: int) | AllFailed | CallAborted

  datatype Walk = Walk(ending: Ending, entries: seq<Entry>, visits: nat, requests: nat)

  function RepliesTo(call: Call, visit: nat): nat -> Reply {
    (attempt: nat) => call.replies(visit, attempt)
  }

  function OutcomeAt(call: Call, visit: nat): Outcome {
    OutcomeOf(RepliesTo(call, visit)(Deciding(RepliesTo(call, visit), 0)))
  }

  function ModelOf(call: Call, e: Entry): (model: string)
    ensures !e.fallback && call.explicitModel != "" ==> model == call.explicitModel
    ensures e.fallback || call.explicitModel == "" ==> model == e.provider.defaultModel || model == call.chatModel
  {
    if !e.fallback && call.explicitModel != "" then call.explicitModel
    else if e.provider.defaultModel != "" then e.provider.defaultModel
    else call.chatModel
  }

  predicate Listed(entries: seq<Entry>, model: string) {
    exists k :: 0 <= k < |entries| && entries[k].provider.id == "gemini" && entries[k].provider.defaultModel == model
  }

  /** The first free model neither attempted nor listed. */
  function FreeModel(entries: seq<Entry>, attempted: set<string>): Option<string> {
    if FREE_MODELS[0] !in attempted && !Listed(entries, FREE_MODELS[0]) then Some(FREE_MODELS[0])
    else if FREE_MODELS[1] !in attempted && !Listed(entries, FREE_MODELS[1]) then Some(FREE_MODELS[1])
    else None
  }

  predicate MayFallBack(call: Call, p: Provider, status: int) {
    Overloaded(status) && p.id == "gemini" && (call.explicitModel == "" || call.allowModelFallback)
  }

  /** Statuses that pass the call on to the next provider. */
  predicate FailsOver(status: int) {
    status == 401 || status == 403 || status == 408 || status == 429 || status >= 500
  }

  /** The list after the i-th entry answered with an error. */
  function Grown(call: Call, entries: seq<Entry>, i: nat, attempted: set<string>, status: int): seq<Entry>
    requires i < |entries|
  {
    var p := entries[i].provider;
    var model := FreeModel(entries, attempted);
    if MayFallBack(call, p, status) && model.Some? then
      entries[..i + 1] + [Entry(p.(defaultModel := model.value), true)] + entries[i + 1..]
    else entries
  }

  /** Free models that no entry uses yet; each insertion uses one up. */
  function Unused(entries: seq<Entry>): nat {
    (if Listed(entries, FREE_MODELS[0]) then 0 else 1) + (if Listed(entries, FREE_MODELS[1]) then 0 else 1)
  }

  lemma GrownUsesUp(call: Call, entries: seq<Entry>, i: nat, attempted: set<string>, status: int)
    requires i < |entries|
    ensures var grown := Grown(call, entries, i, attempted, status);
            && grown[..i + 1] == entries[..i + 1]
            && |entries| <= |grown| && |grown| + Unused(grown) <= |entries| + Unused(entries)
  {
    var grown := Grown(call, entries, i, attempted, status);
    if grown != entries {
      ListedGrows(entries, grown, i, FREE_MODELS[0]);
      ListedGrows(entries, grown, i, FREE_MODELS[1]);
      assert grown[i + 1].provider.id == "gemini";
    }
  }

  lemma ListedGrows(entries: seq<Entry>, grown: seq<Entry>, i: nat, model: string)
    requires i < |entries| && |grown| == |entries| + 1
    requires grown == entries[..i + 1] + [grown[i + 1]] + entries[i + 1..]
    ensures Listed(entries, model) ==> Listed(grown, model)
  {
    if Listed(entries, model) {
      var k :| 0 <= k < |entries| && entries[k].provider.id == "gemini" && entries[k].provider.defaultModel == model;
      var l := if k <= i then k else k + 1;
      assert grown[l] == entries[k];
    }
  }

  /** The loop from its i-th entry on. */
  function WalkFrom(call: Call, entries: seq<Entry>, i: nat, attempted: set<string>, requests: nat): Walk
    requires i <= |entries|
    decreases |entries| + Unused(entries) - i
  {
    if i == |entries| then Walk(AllFailed, entries, i, requests)
    else
      var outcome := OutcomeAt(call, i);
      var total := requests + Requests(RepliesTo(call, i));
      var tried := attempted + {ModelOf(call, entries[i])};
      match outcome
      case Aborted => Walk(CallAborted, entries, i + 1, total)
      case NoAnswer =>
        if i + 1 < |entries| then WalkFrom(call, entries, i + 1, tried, total)
        else Walk(AllFailed, entries, i + 1, total)
      case Answered(status) =>
        if IsOk(status) then Walk(Success, entries, i + 1, total)
        else
          var grown := Grown(call, entries, i, tried, status);
          GrownUsesUp(call, entries, i, tried, status);
          if FailsOver(status) && i + 1 < |grown| then WalkFrom(call, grown, i + 1, tried, total)
          else Walk(Refused(status), grown, i + 1, total)
  }

  function Originals(entries: seq<Entry>): seq<Provider> {
    if entries == [] then []
    else if entries[0].fallback then Originals(entries[1..])
    else [entries[0].provider] + Originals(entries[1..])
  }

  function Plain(list: seq<Provider>): (r: seq<Entry>)
    ensures |r| == |list| && forall k :: 0 <= k < |r| ==> r[k] == Entry(list[k], false)
  {
    seq(|list|, k requires 0 <= k < |list| => Entry(list[k], false))
  }

  method InvokeLLM(list: seq<Provider>, call: Call) returns (walk: Walk)
    ensures walk == WalkFrom(call, Plain(list), 0, {}, 0)
  {
    hide Grown, OutcomeOf, Deciding, Requests, ModelOf, FailsOver, Plain, Unused, FreeModel;
    var providers := Plain(list);
    var attemptedModels: set<string> := {};
    var requests := 0;
    var i := 0;
    while i < |providers|
      invariant i <= |providers|
      invariant WalkFrom(call, Plain(list), 0, {}, 0) == WalkFrom(call, providers, i, attemptedModels, requests)
      decreases |providers| + Unused(providers) - i
    {
      var provider := providers[i];
      attemptedModels := attemptedModels + {ModelOf(call, provider)};
      var reply, sent := FetchWithBackoff(RepliesTo(call, i));
      requests := requests + sent;
      match OutcomeOf(reply) {
        case Aborted =>
          return Walk(CallAborted, providers, i + 1, requests);
        case NoAnswer =>
          if i == |providers| - 1 {
            return Walk(AllFailed, providers, i + 1, requests);
          }
        case Answered(status) =>
          if IsOk(status) {
            return Walk(Success, providers, i + 1, requests);
          }
          GrownUsesUp(call, providers, i, attemptedModels, status);
          GrownMeans(call, providers, i, attemptedModels, status);
          ghost var grown := Grown(call, providers, i, attemptedModels, status);
          if Overloaded(status) && provider.provider.id == "gemini" &&
             (call.explicitModel == "" || call.allowModelFallback)
          {
            var fallback := FreeModel(providers, attemptedModels);
            if fallback.Some? {
              var candidate := Entry(provider.provider.(defaultModel := fallback.value), true);
              providers := providers[..i + 1] + [candidate] + providers[i + 1..];
            }
          }
          assert providers == grown;
          if !(FailsOver(status) && i < |providers| - 1) {
            return Walk(Refused(status), providers, i + 1, requests);
          }
      }
      i := i + 1;
    }
    return Walk(AllFailed, providers, i, requests);
  }

  lemma GrownMeans(call: Call, entries: seq<Entry>, i: nat, attempted: set<string>, status: int)
    requires i < |entries|
    ensures var p := entries[i].provider;
            Grown(call, entries, i, attempted, status) ==
            if Overloaded(status) && p.id == "gemini" && (call.explicitModel == "" || call.allowModelFallback) &&
               FreeModel(entries, attempted).Some?
            then entries[..i + 1] + [Entry(p.(defaultModel := FreeModel(entries, attempted).value), true)]
                 + entries[i + 1..]
            else entries
  {
    hide FreeModel;
  }

  // ----- what the loop guarantees -----

  lemma {:induction false} OriginalsConcat(a: seq<Entry>, b: seq<Entry>)
    ensures Originals(a + b) == Originals(a) + Originals(b)
  {
    if a == [] {
      assert a + b == b;
    } else {
      assert (a + b)[1..] == a[1..] + b;
      OriginalsConcat(a[1..], b);
    }
  }

  lemma InsertKeepsOriginals(entries: seq<Entry>, i: nat, inserted: Entry)
    requires i < |entries| && inserted.fallback
    ensures Originals(entries[..i + 1] + [inserted] + entries[i + 1..]) == Originals(entries)
  {
    hide Originals;
    var front, back := entries[..i + 1], entries[i + 1..];
    OneFallback(inserted);
    OriginalsConcat(front + [inserted], back);
    OriginalsConcat(front, [inserted]);
    OriginalsConcat(front, back);
    assert front + back == entries;
    assert Originals(front) + [] == Originals(front);
  }

  lemma OneFallback(inserted: Entry)
    requires inserted.fallback
    ensures Originals([inserted]) == []
  {
    assert [inserted][1..] == [];
  }

  lemma GrownKeepsOriginals(call: Call, entries: seq<Entry>, i: nat, attempted: set<string>, status: int)
    requires i < |entries|
    ensures Originals(Grown(call, entries, i, attempted, status)) == Originals(entries)
  {
    hide Originals, FreeModel, Grown;
    GrownMeans(call, entries, i, attempted, status);
    if Grown(call, entries, i, attempted, status) != entries {
      var p := entries[i].provider;
      InsertKeepsOriginals(entries, i, Entry(p.(defaultModel := FreeModel(entries, attempted).value), true));
    }
  }

  /** Fallback entries run gemini with one of the free models, no two with the same. */
  ghost predicate FallbacksDistinct(entries: seq<Entry>) {
    && (forall k :: 0 <= k < |entries| && entries[k].fallback ==>
          entries[k].provider.id == "gemini" && entries[k].provider.defaultModel in FREE_MODELS)
    && (forall k, l :: 0 <= k < l < |entries| && entries[k].fallback && entries[l].fallback ==>
          entries[k].provider.defaultModel != entries[l].provider.defaultModel)
  }

  lemma GrownDistinct(call: Call, entries: seq<Entry>, i: nat, attempted: set<string>, status: int)
    requires i < |entries| && FallbacksDistinct(entries)
    ensures FallbacksDistinct(Grown(call, entries, i, attempted, status))
  {
    var grown := Grown(call, entries, i, attempted, status);
    if grown != entries {
      var model := grown[i + 1].provider.defaultModel;
      assert !Listed(entries, model);
      assert forall k :: 0 <= k <= i ==> grown[k] == entries[k];
      assert forall k :: i + 1 < k < |grown| ==> grown[k] == entries[k - 1];
    }
  }

  /** What a walk that starts at the i-th entry keeps and ends with. */
  ghost predicate WalkOk(call: Call, entries: seq<Entry>, i: nat, requests: nat, w: Walk) {
    && i <= |entries| <= |w.entries| && |w.entries| <= |entries| + Unused(entries)
    && Originals(w.entries) == Originals(entries) && FallbacksDistinct(w.entries)
    && i <= w.visits <= |w.entries| && w.requests <= requests + (RETRY_MAX_RETRIES + 1) * (w.visits - i)
    && (i < |entries| ==> i < w.visits)
    && (forall k :: i <= k < w.visits - 1 ==> PassedOn(OutcomeAt(call, k)))
    && (i < w.visits ==> EndsWith(OutcomeAt(call, w.visits - 1), w.ending, w.visits == |w.entries|))
  }

  /** No answer, or one that another provider may do better: refused keys, overload, server errors. */
  predicate PassedOn(outcome: Outcome) {
    outcome.NoAnswer? || (outcome.Answered? && (outcome.status in {401, 403, 408, 429} || outcome.status >= 500))
  }

  /** The ending is that of the last visit, and a failure that would be passed on came last in the list. */
  predicate EndsWith(outcome: Outcome, ending: Ending, last: bool) {
    match outcome
    case Aborted => ending == CallAborted
    case NoAnswer => ending == AllFailed && last
    case Answered(status) =>
      if 200 <= status < 300 then ending == Success else ending == Refused(status) && (PassedOn(outcome) ==> last)
  }

  lemma FailsOverMeans(status: int)
    ensures FailsOver(status) <==> PassedOn(Answered(status))
  {
  }

  lemma {:induction false} WalkKeeps(call: Call, entries: seq<Entry>, i: nat, attempted: set<string>, requests: nat)
    requires i <= |entries| && FallbacksDistinct(entries)
    ensures WalkOk(call, entries, i, requests, WalkFrom(call, entries, i, attempted, requests))
    decreases |entries| + Unused(entries) - i
  {
    hide Grown, FallbacksDistinct, Originals, OutcomeAt, Requests, Unused, ModelOf, FailsOver;
    if i < |entries| {
      var outcome := OutcomeAt(call, i);
      var total := requests + Requests(RepliesTo(call, i));
      var tried := attempted + {ModelOf(call, entries[i])};
      if outcome.NoAnswer? && i + 1 < |entries| {
        WalkKeeps(call, entries, i + 1, tried, total);
      } else if outcome.Answered? && !IsOk(outcome.status) {
        var grown := Grown(call, entries, i, tried, outcome.status);
        GrownUsesUp(call, entries, i, tried, outcome.status);
        GrownKeepsOriginals(call, entries, i, tried, outcome.status);
        GrownDistinct(call, entries, i, tried, outcome.status);
        FailsOverMeans(outcome.status);
        if FailsOver(outcome.status) && i + 1 < |grown| {
          WalkKeeps(call, grown, i + 1, tried, total);
        }
      }
    }
  }

  lemma {:induction false} OriginalsPlain(list: seq<Provider>)
    ensures Originals(Plain(list)) == list
  {
    if list != [] {
      OriginalsPlain(list[1..]);
      assert Plain(list)[1..] == Plain(list[1..]);
    }
  }

  /**
   For any answers the loop visits at most two entries more than there are providers, with at most
   five requests each; inserted entries use different free models, and the providers keep their order.
   */
  lemma FailoverBounds(list: seq<Provider>, call: Call)
    ensures var w := WalkFrom(call, Plain(list), 0, {}, 0);
            && w.visits <= |w.entries| <= |list| + 2
            && w.requests == Sent(call, 0, w.visits) <= 5 * w.visits <= 5 * (|list| + 2)
            && Originals(w.entries) == list
            && FallbacksDistinct(w.entries)
  {
    hide Originals, FallbacksDistinct, WalkFrom, Plain;
    PlainDistinct(list);
    WalkKeeps(call, Plain(list), 0, {}, 0);
    RequestsAdd(call, Plain(list), 0, {}, 0);
    OriginalsPlain(list);
  }

  lemma PlainDistinct(list: seq<Provider>)
    ensures FallbacksDistinct(Plain(list))
  {
  }

  /**
   The loop gives up only for a reason: all visits before the last failed in a way that passes the
   call on, and the last one succeeded, was aborted, was refused for good, or had no entry after it.
   */
  lemma FailoverEnding(list: seq<Provider>, call: Call)
    requires list != []
    ensures var w := WalkFrom(call, Plain(list), 0, {}, 0);
            && w.visits > 0
            && (forall k :: 0 <= k < w.visits - 1 ==> PassedOn(OutcomeAt(call, k)))
            && EndsWith(OutcomeAt(call, w.visits - 1), w.ending, w.visits == |w.entries|)
  {
    hide Originals, FallbacksDistinct, WalkFrom, Plain, OutcomeAt, PassedOn, EndsWith;
    PlainDistinct(list);
    WalkKeeps(call, Plain(list), 0, {}, 0);
  }

  predicate OverloadedAt(call: Call, visit: nat) {
    var outcome := OutcomeAt(call, visit);
    outcome.Answered? && (outcome.status in {408, 429} || 500 <= outcome.status < 600)
  }

  /** Every fallback up to the given entry stands right behind a gemini entry that was overloaded. */
  ghost predicate FollowsOverload(call: Call, entries: seq<Entry>, upTo: nat) {
    forall k :: 0 <= k < |entries| && entries[k].fallback ==>
      0 < k <= upTo && entries[k - 1].provider.id == "gemini" && OverloadedAt(call, k - 1)
  }

  lemma GrownFollows(call: Call, entries: seq<Entry>, i: nat, attempted: set<string>, status: int)
    requires i < |entries| && FollowsOverload(call, entries, i) && OutcomeAt(call, i) == Answered(status)
    ensures FollowsOverload(call, Grown(call, entries, i, attempted, status), i + 1)
  {
    hide OutcomeAt, FreeModel;
    var grown := Grown(call, entries, i, attempted, status);
    if grown != entries {
      assert forall k :: 0 <= k <= i ==> grown[k] == entries[k];
      assert forall k :: i + 1 < k < |grown| ==> grown[k] == entries[k - 1];
    }
  }

  /** A fallback model is only ever tried right after gemini was overloaded. */
  lemma {:induction false} FallbackAfterOverload(
    call: Call, entries: seq<Entry>, i: nat, attempted: set<string>, requests: nat)
    requires i <= |entries| && FollowsOverload(call, entries, i)
    ensures FollowsOverload(call, WalkFrom(call, entries, i, attempted, requests).entries, |entries| + Unused(entries))
    decreases |entries| + Unused(entries) - i
  {
    hide Grown, OutcomeAt, Requests, ModelOf, Unused, OverloadedAt;
    if i < |entries| {
      var outcome := OutcomeAt(call, i);
      var total := requests + Requests(RepliesTo(call, i));
      var tried := attempted + {ModelOf(call, entries[i])};
      if outcome.NoAnswer? && i + 1 < |entries| {
        FallbackAfterOverload(call, entries, i + 1, tried, total);
      } else if outcome.Answered? && !IsOk(outcome.status) {
        var grown := Grown(call, entries, i, tried, outcome.status);
        GrownUsesUp(call, entries, i, tried, outcome.status);
        GrownFollows(call, entries, i, tried, outcome.status);
        if FailsOver(outcome.status) && i + 1 < |grown| {
          FallbackAfterOverload(call, grown, i + 1, tried, total);
        }
      }
    }
  }

  /** The models of the entries up to the i-th one were attempted. */
  ghost predicate AttemptedUpTo(call: Call, entries: seq<Entry>, i: nat, attempted: set<string>) {
    forall j :: 0 <= j < i && j < |entries| ==> ModelOf(call, entries[j]) in attempted
  }

  /** A fallback runs its own model, which no entry before it runs. */
  ghost predicate FallbacksFresh(call: Call, entries: seq<Entry>) {
    forall k :: 0 <= k < |entries| && entries[k].fallback ==>
      ModelOf(call, entries[k]) == entries[k].provider.defaultModel &&
      forall j :: 0 <= j < k ==> ModelOf(call, entries[j]) != ModelOf(call, entries[k])
  }

  lemma GrownFresh(call: Call, entries: seq<Entry>, i: nat, attempted: set<string>, status: int)
    requires i < |entries| && FallbacksFresh(call, entries) && FollowsOverload(call, entries, i)
    requires AttemptedUpTo(call, entries, i + 1, attempted)
    ensures FallbacksFresh(call, Grown(call, entries, i, attempted, status))
    ensures AttemptedUpTo(call, Grown(call, entries, i, attempted, status), i + 1, attempted)
  {
    hide OverloadedAt, Listed;
    var grown := Grown(call, entries, i, attempted, status);
    if grown != entries {
      assert forall k :: 0 <= k <= i ==> grown[k] == entries[k];
      assert forall k :: i + 1 < k < |grown| ==> grown[k] == entries[k - 1] && !grown[k].fallback;
      assert grown[i + 1].provider.defaultModel !in attempted && grown[i + 1].provider.defaultModel != "";
    }
  }

  /** Even with a model named by the caller, a fallback runs its free model, and only if nothing before it did. */
  lemma {:induction false} FallbackModelIsFresh(
    call: Call, entries: seq<Entry>, i: nat, attempted: set<string>, requests: nat)
    requires i <= |entries| && FollowsOverload(call, entries, i) && FallbacksFresh(call, entries)
    requires AttemptedUpTo(call, entries, i, attempted)
    ensures FallbacksFresh(call, WalkFrom(call, entries, i, attempted, requests).entries)
    decreases |entries| + Unused(entries) - i
  {
    hide Grown, OutcomeAt, Requests, ModelOf, Unused, OverloadedAt, FallbacksFresh;
    if i < |entries| {
      var outcome := OutcomeAt(call, i);
      var total := requests + Requests(RepliesTo(call, i));
      var tried := attempted + {ModelOf(call, entries[i])};
      if outcome.NoAnswer? && i + 1 < |entries| {
        FallbackModelIsFresh(call, entries, i + 1, tried, total);
      } else if outcome.Answered? && !IsOk(outcome.status) {
        var grown := Grown(call, entries, i, tried, outcome.status);
        GrownUsesUp(call, entries, i, tried, outcome.status);
        GrownFollows(call, entries, i, tried, outcome.status);
        GrownFresh(call, entries, i, tried, outcome.status);
        if FailsOver(outcome.status) && i + 1 < |grown| {
          FallbackModelIsFresh(call, grown, i + 1, tried, total);
        }
      }
    }
  }

  /**
   In the list as it stands at the end, every inserted entry comes right after a gemini entry that
   was overloaded, and runs a free model that no entry before it ran.
   */
  lemma FallbackRules(list: seq<Provider>, call: Call)
    ensures var w := WalkFrom(call, Plain(list), 0, {}, 0);
            FallbacksFresh(call, w.entries) && FollowsOverload(call, w.entries, |w.entries|)
  {
    hide WalkFrom, Plain, Unused, ModelOf, OverloadedAt;
    FallbackAfterOverload(call, Plain(list), 0, {}, 0);
    FallbackModelIsFresh(call, Plain(list), 0, {}, 0);
  }

  // ----- a fallback is tried whenever there is one -----

  /** The walk leaves the entries up to the one it visits as they are. */
  lemma {:induction false} WalkKeepsFront(
    call: Call, entries: seq<Entry>, i: nat, attempted: set<string>, requests: nat)
    requires i < |entries|
    ensures var w := WalkFrom(call, entries, i, attempted, requests);
            i < w.visits && |entries| <= |w.entries| && w.entries[..i + 1] == entries[..i + 1]
    decreases |entries| + Unused(entries) - i
  {
    hide Grown, OutcomeAt, Requests, ModelOf, Unused, FailsOver;
    var outcome := OutcomeAt(call, i);
    var total := requests + Requests(RepliesTo(call, i));
    var tried := attempted + {ModelOf(call, entries[i])};
    if outcome.NoAnswer? && i + 1 < |entries| {
      WalkKeepsFront(call, entries, i + 1, tried, total);
      FrontOf(WalkFrom(call, entries, i + 1, tried, total).entries, entries, i + 1);
    } else if outcome.Answered? && !IsOk(outcome.status) {
      var grown := Grown(call, entries, i, tried, outcome.status);
      GrownUsesUp(call, entries, i, tried, outcome.status);
      if FailsOver(outcome.status) && i + 1 < |grown| {
        WalkKeepsFront(call, grown, i + 1, tried, total);
        FrontOf(WalkFrom(call, grown, i + 1, tried, total).entries, grown, i + 1);
      }
    }
  }

  lemma FrontOf(a: seq<Entry>, b: seq<Entry>, n: nat)
    requires n < |b| <= |a| && a[..n + 1] == b[..n + 1]
    ensures a[..n] == b[..n] && a[n] == b[n]
  {
    assert a[..n] == a[..n + 1][..n] && b[..n] == b[..n + 1][..n];
  }

  /** The two lists hold the same entries but for inserted ones. */
  ghost predicate SamePlain(a: seq<Entry>, b: seq<Entry>) {
    forall e: Entry :: !e.fallback ==> (e in a <==> e in b)
  }

  lemma GrownSamePlain(call: Call, entries: seq<Entry>, i: nat, attempted: set<string>, status: int)
    requires i < |entries|
    ensures SamePlain(Grown(call, entries, i, attempted, status), entries)
  {
    hide FreeModel;
    var grown := Grown(call, entries, i, attempted, status);
    if grown != entries {
      assert entries == entries[..i + 1] + entries[i + 1..];
    }
  }

  lemma {:induction false} WalkSamePlain(
    call: Call, entries: seq<Entry>, i: nat, attempted: set<string>, requests: nat)
    requires i <= |entries|
    ensures SamePlain(WalkFrom(call, entries, i, attempted, requests).entries, entries)
    decreases |entries| + Unused(entries) - i
  {
    hide Grown, OutcomeAt, Requests, ModelOf, Unused, FailsOver;
    if i < |entries| {
      var outcome := OutcomeAt(call, i);
      var total := requests + Requests(RepliesTo(call, i));
      var tried := attempted + {ModelOf(call, entries[i])};
      if outcome.NoAnswer? && i + 1 < |entries| {
        WalkSamePlain(call, entries, i + 1, tried, total);
      } else if outcome.Answered? && !IsOk(outcome.status) {
        var grown := Grown(call, entries, i, tried, outcome.status);
        GrownUsesUp(call, entries, i, tried, outcome.status);
        GrownSamePlain(call, entries, i, tried, outcome.status);
        if FailsOver(outcome.status) && i + 1 < |grown| {
          WalkSamePlain(call, grown, i + 1, tried, total);
        }
      }
    }
  }

  /** Exactly the models of the entries before the i-th one were attempted. */
  ghost predicate AttemptedIs(call: Call, entries: seq<Entry>, i: nat, attempted: set<string>) {
    i <= |entries| &&
    forall model :: model in attempted <==> exists j :: 0 <= j < i && ModelOf(call, entries[j]) == model
  }

  lemma AttemptedNext(
    call: Call, entries: seq<Entry>, i: nat, attempted: set<string>, grown: seq<Entry>)
    requires i < |entries| && AttemptedIs(call, entries, i, attempted)
    requires |entries| <= |grown| && grown[..i + 1] == entries[..i + 1]
    ensures AttemptedIs(call, grown, i + 1, attempted + {ModelOf(call, entries[i])})
  {
    hide ModelOf;
    assert forall j :: 0 <= j <= i ==> grown[j] == grown[..i + 1][j] && entries[j] == entries[..i + 1][j];
    forall model
      ensures model in attempted + {ModelOf(call, entries[i])} <==>
                exists j :: 0 <= j < i + 1 && ModelOf(call, grown[j]) == model
    {
      if model in attempted {
        var j :| 0 <= j < i && ModelOf(call, entries[j]) == model;
        assert ModelOf(call, grown[j]) == model;
      }
      assert ModelOf(call, grown[i]) == ModelOf(call, entries[i]);
    }
  }

  /**
   No entry up to the k-th one ran the model, and no gemini entry lists it but fallbacks that were
   inserted later.
   */
  predicate Available(call: Call, entries: seq<Entry>, k: nat, model: string) {
    && (forall j :: 0 <= j <= k && j < |entries| ==> ModelOf(call, entries[j]) != model)
    && (forall l ::
          0 <= l < |entries| && entries[l].provider.id == "gemini" && entries[l].provider.defaultModel == model ==>
            entries[l].fallback && l > k)
  }

  /** The first free model that is available to the k-th entry. */
  function NextModel(call: Call, entries: seq<Entry>, k: nat): Option<string> {
    if Available(call, entries, k, "gemini-3.1-flash-lite") then Some("gemini-3.1-flash-lite")
    else if Available(call, entries, k, "gemini-3.5-flash-lite") then Some("gemini-3.5-flash-lite")
    else None
  }

  lemma AvailableMeans(
    call: Call, entries: seq<Entry>, i: nat, tried: set<string>, after: seq<Entry>, model: string)
    requires i < |entries| <= |after| && FollowsOverload(call, entries, i)
    requires AttemptedIs(call, entries, i + 1, tried)
    requires after[..i + 1] == entries[..i + 1] && SamePlain(after, entries)
    ensures Available(call, after, i, model) <==> model !in tried && !Listed(entries, model)
  {
    hide ModelOf, OverloadedAt, SamePlain;
    assert forall j :: 0 <= j <= i ==> after[j] == after[..i + 1][j] && entries[j] == entries[..i + 1][j];
    forall l | 0 <= l < |after| && after[l].provider.id == "gemini" && after[l].provider.defaultModel == model
      ensures (after[l].fallback && l > i) || Listed(entries, model)
    {
      if !after[l].fallback {
        var k := PlainIn(after, entries, l);
      } else if l <= i {
        assert entries[l] == after[l];
      }
    }
    forall l | 0 <= l < |entries| && entries[l].provider.id == "gemini" && entries[l].provider.defaultModel == model
      ensures !Available(call, after, i, model)
    {
      if entries[l].fallback {
        assert after[l] == entries[l];
      } else {
        var k := PlainIn(entries, after, l);
      }
    }
  }

  lemma PlainIn(a: seq<Entry>, b: seq<Entry>, l: nat) returns (k: nat)
    requires (SamePlain(a, b) || SamePlain(b, a)) && l < |a| && !a[l].fallback
    ensures k < |b| && b[k] == a[l]
  {
    assert a[l] in b;
    k :| 0 <= k < |b| && b[k] == a[l];
  }

  lemma NextModelMeans(call: Call, entries: seq<Entry>, i: nat, tried: set<string>, after: seq<Entry>)
    requires i < |entries| <= |after| && FollowsOverload(call, entries, i)
    requires AttemptedIs(call, entries, i + 1, tried)
    requires after[..i + 1] == entries[..i + 1] && SamePlain(after, entries)
    ensures NextModel(call, after, i) == FreeModel(entries, tried)
  {
    hide Available, AttemptedIs, FollowsOverload, SamePlain, Listed;
    AvailableMeans(call, entries, i, tried, after, "gemini-3.1-flash-lite");
    AvailableMeans(call, entries, i, tried, after, "gemini-3.5-flash-lite");
  }

  /** An overloaded gemini entry that may fall back is followed by its fallback, which is visited next. */
  predicate FellBack(call: Call, w: Walk, k: nat) {
    k < |w.entries| &&
    var model := NextModel(call, w.entries, k);
    if model.Some? then
      && k + 1 < w.visits && k + 1 < |w.entries|
      && w.entries[k + 1] == Entry(w.entries[k].provider.(defaultModel := model.value), true)
    else k + 1 < |w.entries| ==> !w.entries[k + 1].fallback
  }

  lemma TriedHere(call: Call, entries: seq<Entry>, i: nat, attempted: set<string>, requests: nat)
    requires i < |entries| && FollowsOverload(call, entries, i) && AttemptedIs(call, entries, i, attempted)
    requires OverloadedAt(call, i) && entries[i].provider.id == "gemini"
    requires call.explicitModel == "" || call.allowModelFallback
    ensures FellBack(call, WalkFrom(call, entries, i, attempted, requests), i)
  {
    hide Requests, ModelOf, FreeModel, NextModel, AttemptedIs, SamePlain, Grown;
    var w := WalkFrom(call, entries, i, attempted, requests);
    var status := OutcomeAt(call, i).status;
    var total := requests + Requests(RepliesTo(call, i));
    var tried := attempted + {ModelOf(call, entries[i])};
    var grown := Grown(call, entries, i, tried, status);
    GrownUsesUp(call, entries, i, tried, status);
    GrownMeans(call, entries, i, tried, status);
    AttemptedNext(call, entries, i, attempted, entries);
    WalkKeepsFront(call, entries, i, attempted, requests);
    WalkSamePlain(call, entries, i, attempted, requests);
    NextModelMeans(call, entries, i, tried, w.entries);
    assert w.entries[i] == w.entries[..i + 1][i] && entries[i] == entries[..i + 1][i];
    if i + 1 < |grown| {
      assert w == WalkFrom(call, grown, i + 1, tried, total);
      WalkKeepsFront(call, grown, i + 1, tried, total);
      FrontOf(w.entries, grown, i + 1);
    }
  }

  lemma {:induction false} TriedFrom(
    call: Call, entries: seq<Entry>, i: nat, attempted: set<string>, requests: nat, k: nat)
    requires i <= |entries| && FollowsOverload(call, entries, i) && AttemptedIs(call, entries, i, attempted)
    requires var w := WalkFrom(call, entries, i, attempted, requests);
             i <= k < w.visits && k < |w.entries| && OverloadedAt(call, k) && w.entries[k].provider.id == "gemini"
    requires call.explicitModel == "" || call.allowModelFallback
    ensures FellBack(call, WalkFrom(call, entries, i, attempted, requests), k)
    decreases |entries| + Unused(entries) - i
  {
    hide Grown, OutcomeAt, Requests, ModelOf, Unused, OverloadedAt, FollowsOverload, AttemptedIs, FellBack, FailsOver;
    if i < |entries| {
      var outcome := OutcomeAt(call, i);
      var total := requests + Requests(RepliesTo(call, i));
      var tried := attempted + {ModelOf(call, entries[i])};
      WalkKeepsFront(call, entries, i, attempted, requests);
      if k == i {
        FrontOf(WalkFrom(call, entries, i, attempted, requests).entries, entries, i);
        TriedHere(call, entries, i, attempted, requests);
      } else if outcome.NoAnswer? && i + 1 < |entries| {
        AttemptedNext(call, entries, i, attempted, entries);
        FollowsFurther(call, entries, i);
        TriedFrom(call, entries, i + 1, tried, total, k);
      } else if outcome.Answered? && !IsOk(outcome.status) {
        var grown := Grown(call, entries, i, tried, outcome.status);
        GrownUsesUp(call, entries, i, tried, outcome.status);
        if FailsOver(outcome.status) && i + 1 < |grown| {
          AttemptedNext(call, entries, i, attempted, grown);
          GrownFollows(call, entries, i, tried, outcome.status);
          TriedFrom(call, grown, i + 1, tried, total, k);
        }
      }
    }
  }

  lemma FollowsFurther(call: Call, entries: seq<Entry>, i: nat)
    requires FollowsOverload(call, entries, i)
    ensures FollowsOverload(call, entries, i + 1)
  {
    hide OverloadedAt;
  }

  /**
   Whenever gemini is overloaded and the call may fall back, the first free model that no entry so far
   ran and no gemini entry lists is tried next; without one nothing is inserted.
   */
  lemma FallbackIsTried(list: seq<Provider>, call: Call, k: nat)
    requires var w := WalkFrom(call, Plain(list), 0, {}, 0);
             k < w.visits && k < |w.entries| && OverloadedAt(call, k) && w.entries[k].provider.id == "gemini"
    requires call.explicitModel == "" || call.allowModelFallback
    ensures FellBack(call, WalkFrom(call, Plain(list), 0, {}, 0), k)
  {
    hide WalkFrom, Plain, ModelOf, OverloadedAt, FellBack;
    TriedFrom(call, Plain(list), 0, {}, 0, k);
  }

  /** The requests sent from one visit up to another. */
  function Sent(call: Call, first: nat, end: nat): nat {
    if end <= first then 0 else Sent(call, first, end - 1) + Requests(RepliesTo(call, end - 1))
  }

  lemma {:induction false} SentFirst(call: Call, first: nat, end: nat)
    requires first < end
    ensures Sent(call, first, end) == Requests(RepliesTo(call, first)) + Sent(call, first + 1, end)
    decreases end
  {
    hide Requests;
    if first != end - 1 {
      SentFirst(call, first, end - 1);
    }
  }

  /** The requests of a walk are those of its visits, all counted. */
  lemma {:induction false} RequestsAdd(
    call: Call, entries: seq<Entry>, i: nat, attempted: set<string>, requests: nat)
    requires i <= |entries|
    ensures var w := WalkFrom(call, entries, i, attempted, requests);
            i <= w.visits && w.requests == requests + Sent(call, i, w.visits)
    decreases |entries| + Unused(entries) - i
  {
    hide Grown, OutcomeAt, Requests, ModelOf, Unused, FailsOver, Sent;
    var w := WalkFrom(call, entries, i, attempted, requests);
    if i < |entries| {
      WalkKeepsFront(call, entries, i, attempted, requests);
      SentFirst(call, i, w.visits);
      SentNothing(call, i + 1);
      var outcome := OutcomeAt(call, i);
      var total := requests + Requests(RepliesTo(call, i));
      var tried := attempted + {ModelOf(call, entries[i])};
      if outcome.NoAnswer? && i + 1 < |entries| {
        RequestsAdd(call, entries, i + 1, tried, total);
      } else if outcome.Answered? && !IsOk(outcome.status) {
        var grown := Grown(call, entries, i, tried, outcome.status);
        GrownUsesUp(call, entries, i, tried, outcome.status);
        if FailsOver(outcome.status) && i + 1 < |grown| {
          RequestsAdd(call, grown, i + 1, tried, total);
        }
      }
    } else {
      SentNothing(call, i);
    }
  }

  lemma SentNothing(call: Call, i: nat)
    ensures Sent(call, i, i) == 0
  {
  }

  /** With a binding model and no leave to fall back, the list never grows. */
  lemma {:induction false} BindingModelKeepsList(
    call: Call, entries: seq<Entry>, i: nat, attempted: set<string>, requests: nat)
    requires i <= |entries| && call.explicitModel != "" && !call.allowModelFallback
    ensures WalkFrom(call, entries, i, attempted, requests).entries == entries
    decreases |entries| - i
  {
    hide FreeModel, OutcomeAt, Requests, ModelOf;
    if i < |entries| {
      BindingModelKeepsList(
        call, entries, i + 1, attempted + {ModelOf(call, entries[i])}, requests + Requests(RepliesTo(call, i)));
    }
  }
}
