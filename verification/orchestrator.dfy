/** `refreshApplications` and `extractFeaturesFromApplication`
    (src/applications.ts): store each round's fetched list, then classify
    every application whose features key is not cached yet and store the
    classifier's result, `null` included. The indexer's answers and the AI
    call's outcome are inputs; fetches and classifications are taken one
    after the other, in list order. */
module Orchestrator {
  import opened Wrappers
  import opened Records
  import opened Keys
  import opened KeyValue

  /** What one chat-completion call comes back with. */
  datatype AiOutcome =
    | CallFailed                          // the request rejected; caught, gives null
    | NoArguments                         // no choice, message, tool call or arguments
    | Malformed                           // `JSON.parse` throws or `tool_calls` is empty
    | Arguments(parsed: Option<Features>) // the parsed arguments, a record or null

  /** The settled value of `extractFeaturesFromApplication`. */
  datatype Extraction = Extracted(features: Option<Features>) | Rejected

  /** The extraction's value when no truthy cached value exists. */
  function FromOutcome(o: AiOutcome): (e: Extraction)
    ensures e.Rejected? <==> o.Malformed?
    ensures o.CallFailed? || o.NoArguments? ==> e == Extracted(None)
    ensures o.Arguments? ==> e == Extracted(o.parsed)
  {
    match o
    case CallFailed => Extracted(None)
    case NoArguments => Extracted(None)
    case Malformed => Rejected
    case Arguments(v) => Extracted(v)
  }

  /** `extractFeaturesFromApplication(openai, app)`, with `outcome` the
      answer the AI call would give. A truthy cached value is returned
      without calling out (`called` is false) and without writing; otherwise
      the call is made, parsed arguments are cached, and failures give null. */
  method ExtractFeatures(cache: Cache, app: Application, outcome: AiOutcome) returns (r: Extraction, called: bool)
    requires cache.Valid()
    modifies cache
    ensures cache.Valid()
    ensures var k := FeatureKey(app);
      if k in old(cache.store) && Truthy(old(cache.store)[k]) then
        && !called
        && old(cache.store)[k].FeatureRecord?
        && r == Extracted(Some(old(cache.store)[k].features))
        && cache.store == old(cache.store)
      else
        && called
        && r == FromOutcome(outcome)
        && cache.store == if outcome.Arguments? then old(cache.store)[k := Stored(outcome.parsed)] else old(cache.store)
  {
    var k := FeatureKey(app);
    var cached := cache.Get(k);
    if cached.Some? && Truthy(cached.value) {
      var again := cache.Get(k);
      return Extracted(Some(again.value.features)), false;
    }
    called := true;
    match outcome {
      case CallFailed =>
        r := Extracted(None);
      case NoArguments =>
        r := Extracted(None);
      case Malformed =>
        r := Rejected;
      case Arguments(v) =>
        cache.Set(k, Stored(v));
        r := Extracted(v);
    }
  }

  /** Asking twice about an application whose features the first call
      cached: the second call makes no AI call and returns the same value. */
  method ExtractTwice(cache: Cache, app: Application, first: AiOutcome, second: AiOutcome)
    returns (r1: Extraction, called1: bool, r2: Extraction, called2: bool)
    requires cache.Valid()
    modifies cache
    ensures r1.Extracted? && r1.features.Some? ==> !called2 && r2 == r1
  {
    r1, called1 := ExtractFeatures(cache, app, first);
    r2, called2 := ExtractFeatures(cache, app, second);
  }

  // ---------------------------------------------------------------------
  // Specification of one refresh cycle

  /** The store after writing each successfully fetched list under its
      round's key, in order of `refs`. */
  function StoreLists(store: map<string, Value>, refs: seq<RoundRef>, fetched: seq<Option<seq<Application>>>): map<string, Value>
    requires |fetched| == |refs|
  {
    if refs == [] then store
    else
      var n := |refs| - 1;
      var s := StoreLists(store, refs[..n], fetched[..n]);
      if fetched[n].Some? then s[ListKey(refs[n]) := AppList(fetched[n].value)] else s
  }

  predicate AllFetched(fetched: seq<Option<seq<Application>>>) {
    forall i :: 0 <= i < |fetched| ==> fetched[i].Some?
  }

  /** `applicationChunks.flat()`. */
  function Concat(fetched: seq<Option<seq<Application>>>): seq<Application>
    requires AllFetched(fetched)
  {
    if fetched == [] then []
    else Concat(fetched[..|fetched| - 1]) + fetched[|fetched| - 1].value
  }

  /** The cache, whether something rejected, and the applications the
      classifier was asked about. */
  datatype CycleState = CycleState(store: map<string, Value>, failed: bool, called: seq<Application>)

  /** One application of the classification stage: skipped when its
      features key is present; otherwise classified, and the result (null
      for a failed call) stored, unless the extraction rejected. */
  function Step(st: CycleState, app: Application, ai: Application -> AiOutcome): CycleState {
    var k := FeatureKey(app);
    if k in st.store then st
    else
      match FromOutcome(ai(app))
      case Rejected => st.(failed := true, called := st.called + [app])
      case Extracted(v) => st.(store := st.store[k := Stored(v)], called := st.called + [app])
  }

  function Classify(store: map<string, Value>, apps: seq<Application>, ai: Application -> AiOutcome): CycleState {
    if apps == [] then CycleState(store, false, [])
    else Step(Classify(store, apps[..|apps| - 1], ai), apps[|apps| - 1], ai)
  }

  /** A whole cycle: lists first; a failed fetch rejects the cycle before
      any classification. */
  function Cycle(store: map<string, Value>, refs: seq<RoundRef>, fetched: seq<Option<seq<Application>>>, ai: Application -> AiOutcome): CycleState
    requires |fetched| == |refs|
  {
    var lists := StoreLists(store, refs, fetched);
    if !AllFetched(fetched) then CycleState(lists, true, [])
    else Classify(lists, Concat(fetched), ai)
  }

  // ---------------------------------------------------------------------
  // The imperative refresh, proved against Cycle

  /** The fetch stage: writes each fetched list under its round's key and
      concatenates the lists; `allFetched` is false when a fetch failed. */
  method StoreFetched(cache: Cache, refs: seq<RoundRef>, fetched: seq<Option<seq<Application>>>)
    returns (allFetched: bool, apps: seq<Application>)
    requires cache.Valid() && |fetched| == |refs|
    modifies cache
    ensures cache.Valid()
    ensures cache.store == StoreLists(old(cache.store), refs, fetched)
    ensures allFetched == AllFetched(fetched)
    ensures allFetched ==> apps == Concat(fetched)
  {
    apps := [];
    allFetched := true;
    var i := 0;
    while i < |refs|
      invariant 0 <= i <= |refs|
      invariant cache.Valid()
      invariant cache.store == StoreLists(old(cache.store), refs[..i], fetched[..i])
      invariant allFetched == AllFetched(fetched[..i])
      invariant allFetched ==> apps == Concat(fetched[..i])
    {
      assert refs[..i + 1][..i] == refs[..i] && fetched[..i + 1][..i] == fetched[..i];
      if fetched[i].Some? {
        cache.Set(ListKey(refs[i]), AppList(fetched[i].value));
        apps := apps + fetched[i].value;
      } else {
        allFetched := false;
      }
      i := i + 1;
    }
    assert refs[..i] == refs && fetched[..i] == fetched;
  }

  /** The classification stage: for each application whose features key
      is absent, extract and store the result. */
  method ClassifyPending(cache: Cache, apps: seq<Application>, ai: Application -> AiOutcome)
    returns (failed: bool, called: seq<Application>)
    requires cache.Valid()
    modifies cache
    ensures cache.Valid()
    ensures CycleState(cache.store, failed, called) == Classify(old(cache.store), apps, ai)
  {
    failed := false;
    called := [];
    var j := 0;
    while j < |apps|
      invariant 0 <= j <= |apps|
      invariant cache.Valid()
      invariant CycleState(cache.store, failed, called) == Classify(old(cache.store), apps[..j], ai)
    {
      assert apps[..j + 1][..j] == apps[..j];
      var app := apps[j];
      ghost var before := CycleState(cache.store, failed, called);
      assert Classify(old(cache.store), apps[..j + 1], ai) == Step(before, app, ai);
      var k := FeatureKey(app);
      if !cache.Has(k) {
        var r, _ := ExtractFeatures(cache, app, ai(app));
        called := called + [app];
        match r {
          case Rejected =>
            assert cache.store == before.store;
            failed := true;
          case Extracted(v) =>
            cache.Set(k, Stored(v));
            assert cache.store == before.store[k := Stored(v)];
        }
      }
      j := j + 1;
    }
    assert apps[..j] == apps;
  }

  /** `refreshApplications(refs)`, with `fetched[i]` the indexer's answer
      for `refs[i]` (None when the fetch failed) and `ai` the AI call's
      outcome per application. Returns whether the cycle resolved and the
      applications the classifier was asked about. */
  method RefreshApplications(cache: Cache, refs: seq<RoundRef>, fetched: seq<Option<seq<Application>>>, ai: Application -> AiOutcome)
    returns (ok: bool, called: seq<Application>)
    requires cache.Valid() && |fetched| == |refs|
    modifies cache
    ensures cache.Valid()
    ensures var out := Cycle(old(cache.store), refs, fetched, ai);
      cache.store == out.store && ok == !out.failed && called == out.called
  {
    var allFetched, apps := StoreFetched(cache, refs, fetched);
    if !allFetched {
      return false, [];
    }
    var failed;
    failed, called := ClassifyPending(cache, apps, ai);
    ok := !failed;
  }
}
