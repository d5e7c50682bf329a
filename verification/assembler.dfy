/** `getApplications` (src/applications.ts): read every round's cached raw
    list, join each application with its cached features, stamp the
    flattened tag list and `refId`, and sort by project title. */
module Assembler {
  import opened Wrappers
  import opened Records
  import opened Keys
  import opened KeyValue
  import opened Sorting

  /** Why the read path rejects: a round's list is not cached (the source
      throws `Cache miss for <key>`), or an application's features key holds
      no features-or-null value (the source then reads `.tags` of it). */
  datatype Error = CacheMiss(key: string) | FeaturesUnreadable(key: string)

  /** The text of the error the source throws on a round-list miss. */
  function MissMessage(e: Error): (m: string)
    requires e.CacheMiss?
    ensures |m| == 15 + |e.key|
    ensures m[..15] == "Cache miss for " && m[15..] == e.key
  {
    "Cache miss for " + e.key
  }

  /** The message names the missing key: different misses read differently. */
  lemma MissMessageNamesKey(e1: Error, e2: Error)
    requires e1.CacheMiss? && e2.CacheMiss?
    requires MissMessage(e1) == MissMessage(e2)
    ensures e1 == e2
  {
    assert e1.key == MissMessage(e1)[15..];
  }

  // ---------------------------------------------------------------------
  // Step 1: the raw lists, one per round, concatenated in order of `refs`

  /** The cached raw list of a round, when the entry is a list (a truthy
      array; absent and `null` entries are misses). */
  function ListAt(store: map<string, Value>, ref: RoundRef): Option<seq<Application>> {
    var k := ListKey(ref);
    if k in store && store[k].AppList? then Some(store[k].apps) else None
  }

  predicate ListCached(store: map<string, Value>, ref: RoundRef) {
    ListAt(store, ref).Some?
  }

  /** Reads every round's list; fails with the key of the first round whose
      list is not cached. */
  function Gather(store: map<string, Value>, refs: seq<RoundRef>): (r: Result<seq<Application>, Error>)
    ensures r.Success? <==> forall i :: 0 <= i < |refs| ==> ListCached(store, refs[i])
    ensures r.Failure? ==>
      exists i :: 0 <= i < |refs| && !ListCached(store, refs[i])
        && (forall j :: 0 <= j < i ==> ListCached(store, refs[j]))
        && r.error == CacheMiss(ListKey(refs[i]))
  {
    if refs == [] then Success([])
    else
      match ListAt(store, refs[0])
      case None => Failure(CacheMiss(ListKey(refs[0])))
      case Some(apps) =>
        var rest := Gather(store, refs[1..]);
        if rest.Failure? then
          assert forall i :: 1 <= i < |refs| ==> refs[i] == refs[1..][i - 1];
          Failure(rest.error)
        else
          Success(apps + rest.value)
  }

  /** Gathering a concatenation of round lists concatenates their results. */
  lemma {:induction false} GatherAppend(store: map<string, Value>, refs1: seq<RoundRef>, refs2: seq<RoundRef>)
    requires Gather(store, refs1 + refs2).Success?
    ensures Gather(store, refs1).Success? && Gather(store, refs2).Success?
    ensures Gather(store, refs1 + refs2).value == Gather(store, refs1).value + Gather(store, refs2).value
  {
    if refs1 == [] {
      assert refs1 + refs2 == refs2;
    } else {
      assert (refs1 + refs2)[1..] == refs1[1..] + refs2;
      assert (refs1 + refs2)[0] == refs1[0];
      GatherAppend(store, refs1[1..], refs2);
    }
  }

  /** Every gathered application comes from the cached list of one of the
      rounds. */
  lemma {:induction false} GatherMembers(store: map<string, Value>, refs: seq<RoundRef>)
    requires Gather(store, refs).Success?
    ensures forall x :: x in Gather(store, refs).value ==>
      exists i :: 0 <= i < |refs| && ListCached(store, refs[i]) && x in ListAt(store, refs[i]).value
  {
    if refs != [] {
      GatherMembers(store, refs[1..]);
      forall x | x in Gather(store, refs).value
        ensures exists i :: 0 <= i < |refs| && ListCached(store, refs[i]) && x in ListAt(store, refs[i]).value
      {
        if x !in ListAt(store, refs[0]).value {
          var i :| 0 <= i < |refs[1..]| && ListCached(store, refs[1..][i]) && x in ListAt(store, refs[1..][i]).value;
          assert refs[1..][i] == refs[i + 1];
        }
      }
    }
  }

  /** One round gathers to exactly its cached list. */
  lemma GatherOne(store: map<string, Value>, ref: RoundRef)
    requires ListCached(store, ref)
    ensures Gather(store, [ref]) == Success(store[ListKey(ref)].apps)
  {
    assert [ref][1..] == [];
    assert Gather(store, [ref][1..]) == Success([]);
    assert store[ListKey(ref)].apps + [] == store[ListKey(ref)].apps;
  }

  // ---------------------------------------------------------------------
  // Step 2: the flattened tag list

  /** An element of the array literal that `filter(Boolean).flat()` runs on:
      an array field, a string field, or `undefined`. */
  datatype TagPart = Strings(items: seq<string>) | Text(s: string) | Undefined

  /** `Boolean(part)`: arrays are truthy even when empty, strings unless
      empty, `undefined` never. */
  predicate TruthyPart(p: TagPart) {
    match p
    case Strings(_) => true
    case Text(s) => s != ""
    case Undefined => false
  }

  /** No part is `undefined`. */
  predicate Defined(ps: seq<TagPart>) {
    forall p :: p in ps ==> !p.Undefined?
  }

  function FilterTruthy(ps: seq<TagPart>): (r: seq<TagPart>)
    ensures forall i :: 0 <= i < |r| ==> TruthyPart(r[i])
    ensures Defined(r)
  {
    if ps == [] then []
    else if TruthyPart(ps[0]) then [ps[0]] + FilterTruthy(ps[1..])
    else FilterTruthy(ps[1..])
  }

  /** `flat()` one level: an array contributes its items, a string itself. */
  function Flat(ps: seq<TagPart>): seq<string>
    requires Defined(ps)
  {
    if ps == [] then []
    else
      assert ps[0] in ps && forall p :: p in ps[1..] ==> p in ps;
      match ps[0]
      case Strings(items) => items + Flat(ps[1..])
      case Text(s) => [s] + Flat(ps[1..])
  }

  /** The array literal of features fields, in source order. */
  function TagParts(f: Features): seq<TagPart> {
    [ Strings(f.tags), Strings(f.regions), Text(f.teamSize), Strings(f.technologyStack),
      Text(f.projectAge), Text(f.usersCount), if f.isDao then Text("DAO governed") else Undefined ]
  }

  /** The `tags` list stamped on an enriched application. */
  function FlattenTags(f: Features): seq<string> {
    Flat(FilterTruthy(TagParts(f)))
  }

  /** A scalar field contributes itself unless it is the empty string. */
  function Scalar(s: string): seq<string> {
    if s == "" then [] else [s]
  }

  function DaoTag(isDao: bool): seq<string> {
    if isDao then ["DAO governed"] else []
  }

  lemma {:induction false} FlatAppend(ps: seq<TagPart>, qs: seq<TagPart>)
    requires Defined(ps) && Defined(qs)
    ensures Defined(ps + qs)
    ensures Flat(ps + qs) == Flat(ps) + Flat(qs)
  {
    if ps != [] {
      assert (ps + qs)[1..] == ps[1..] + qs;
      assert (ps + qs)[0] == ps[0];
      assert forall p :: p in ps[1..] ==> p in ps;
      FlatAppend(ps[1..], qs);
    } else {
      assert ps + qs == qs;
    }
  }

  lemma {:induction false} FilterTruthyAppend(ps: seq<TagPart>, qs: seq<TagPart>)
    ensures FilterTruthy(ps + qs) == FilterTruthy(ps) + FilterTruthy(qs)
  {
    if ps != [] {
      assert (ps + qs)[1..] == ps[1..] + qs;
      assert (ps + qs)[0] == ps[0];
      FilterTruthyAppend(ps[1..], qs);
    } else {
      assert ps + qs == qs;
    }
  }

  /** The contribution of one part after `filter(Boolean).flat()`. */
  lemma PartContribution(p: TagPart)
    ensures Flat(FilterTruthy([p])) ==
      match p
      case Strings(items) => items
      case Text(s) => Scalar(s)
      case Undefined => []
  {
    assert [p][1..] == [];
  }

  /** The tag list is, in order: `tags`, `regions`, `team_size`,
      `technology_stack`, `project_age`, `users_count` and "DAO governed"
      when `is_dao`; empty scalar fields are dropped, array fields are
      spliced whole (empty strings inside them stay). */
  lemma {:induction false} FlattenTagsShape(f: Features)
    ensures FlattenTags(f) ==
      f.tags + f.regions + Scalar(f.teamSize) + f.technologyStack
      + Scalar(f.projectAge) + Scalar(f.usersCount) + DaoTag(f.isDao)
  {
    var ps := TagParts(f);
    var parts := [ps[0], ps[1], ps[2], ps[3], ps[4], ps[5], ps[6]];
    assert ps == [ps[0]] + [ps[1]] + [ps[2]] + [ps[3]] + [ps[4]] + [ps[5]] + [ps[6]];
    FilterTruthyAppend([ps[0]] + [ps[1]] + [ps[2]] + [ps[3]] + [ps[4]] + [ps[5]], [ps[6]]);
    FilterTruthyAppend([ps[0]] + [ps[1]] + [ps[2]] + [ps[3]] + [ps[4]], [ps[5]]);
    FilterTruthyAppend([ps[0]] + [ps[1]] + [ps[2]] + [ps[3]], [ps[4]]);
    FilterTruthyAppend([ps[0]] + [ps[1]] + [ps[2]], [ps[3]]);
    FilterTruthyAppend([ps[0]] + [ps[1]], [ps[2]]);
    FilterTruthyAppend([ps[0]], [ps[1]]);
    var f0, f1, f2, f3, f4, f5, f6 :=
      FilterTruthy([ps[0]]), FilterTruthy([ps[1]]), FilterTruthy([ps[2]]), FilterTruthy([ps[3]]),
      FilterTruthy([ps[4]]), FilterTruthy([ps[5]]), FilterTruthy([ps[6]]);
    PartContribution(ps[0]); PartContribution(ps[1]); PartContribution(ps[2]);
    PartContribution(ps[3]); PartContribution(ps[4]); PartContribution(ps[5]);
    PartContribution(ps[6]);
    assert FilterTruthy(ps) == f0 + f1 + f2 + f3 + f4 + f5 + f6;
    FlatAppend(f0, f1);
    FlatAppend(f0 + f1, f2);
    FlatAppend(f0 + f1 + f2, f3);
    FlatAppend(f0 + f1 + f2 + f3, f4);
    FlatAppend(f0 + f1 + f2 + f3 + f4, f5);
    FlatAppend(f0 + f1 + f2 + f3 + f4 + f5, f6);
  }

  /** The empty string appears among the tags exactly when one of the array
      fields holds it: the scalar fields never contribute it. */
  lemma EmptyTagOnlyFromArrays(f: Features)
    ensures "" in FlattenTags(f) <==> "" in f.tags || "" in f.regions || "" in f.technologyStack
  {
    FlattenTagsShape(f);
  }

  /** How many tags an application with features `f` gets. */
  lemma FlattenTagsLength(f: Features)
    ensures |FlattenTags(f)| ==
      |f.tags| + |f.regions| + |f.technologyStack|
      + |Scalar(f.teamSize)| + |Scalar(f.projectAge)| + |Scalar(f.usersCount)|
      + (if f.isDao then 1 else 0)
  {
    FlattenTagsShape(f);
  }

  // ---------------------------------------------------------------------
  // Step 3: enrichment, one application at a time

  /** `{...app, tags, features, refId}`. */
  function Enrich(app: Application, f: Features): Application {
    app.(tags := Some(FlattenTags(f)), features := Some(f), refId := Some(RefId(app)))
  }

  /** Enrichment sets exactly `tags`, `features` and `refId`: putting the
      three original fields back gives the input, whatever `refId` it had. */
  lemma EnrichStampsOnly(app: Application, f: Features)
    ensures Enrich(app, f).(tags := app.tags, features := app.features, refId := app.refId) == app
    ensures Enrich(app, f).refId == Some(RefId(app)) && Enrich(app, f).features == Some(f)
  {
  }

  /** The features key holds a features record or a stored `null`. */
  predicate FeaturesReadable(store: map<string, Value>, app: Application) {
    FeatureKey(app) in store && !store[FeatureKey(app)].AppList?
  }

  /** `features === null` gives no record, a features record gives one,
      anything else makes the read reject. */
  function EnrichOne(store: map<string, Value>, app: Application): (r: Result<seq<Application>, Error>)
    ensures r.Success? <==> FeaturesReadable(store, app)
    ensures r.Failure? ==> r.error == FeaturesUnreadable(FeatureKey(app))
    ensures r.Success? && store[FeatureKey(app)].Null? ==> r.value == []
    ensures r.Success? && store[FeatureKey(app)].FeatureRecord? ==>
      r.value == [Enrich(app, store[FeatureKey(app)].features)]
  {
    var k := FeatureKey(app);
    if k !in store then Failure(FeaturesUnreadable(k))
    else
      match store[k]
      case Null => Success([])
      case FeatureRecord(f) => Success([Enrich(app, f)])
      case AppList(_) => Failure(FeaturesUnreadable(k))
  }

  /** Every output record is the enrichment of an input application by the
      features cached for it. */
  ghost predicate FromInputs(store: map<string, Value>, apps: seq<Application>, out: seq<Application>) {
    forall x :: x in out ==>
      exists a :: a in apps && FeatureKey(a) in store && store[FeatureKey(a)].FeatureRecord?
        && x == Enrich(a, store[FeatureKey(a)].features)
  }

  /** The join of all applications with their features, in input order. */
  function EnrichAll(store: map<string, Value>, apps: seq<Application>): (r: Result<seq<Application>, Error>)
    ensures r.Success? <==> forall i :: 0 <= i < |apps| ==> FeaturesReadable(store, apps[i])
  {
    if apps == [] then Success([])
    else
      var one := EnrichOne(store, apps[0]);
      if one.Failure? then Failure(one.error)
      else
        var rest := EnrichAll(store, apps[1..]);
        if rest.Failure? then
          Failure(rest.error)
        else
          assert forall i :: 1 <= i < |apps| ==> apps[i] == apps[1..][i - 1];
          Success(one.value + rest.value)
  }

  /** Sequencing of two joins, as `Promise.all` over their concatenation:
      the first failure wins, otherwise the results are concatenated. */
  function Then(r1: Result<seq<Application>, Error>, r2: Result<seq<Application>, Error>): Result<seq<Application>, Error> {
    if r1.Failure? then r1 else if r2.Failure? then r2 else Success(r1.value + r2.value)
  }

  lemma ThenAssociative(r1: Result<seq<Application>, Error>, r2: Result<seq<Application>, Error>, r3: Result<seq<Application>, Error>)
    ensures Then(r1, Then(r2, r3)) == Then(Then(r1, r2), r3)
  {
    if r1.Success? && r2.Success? && r3.Success? {
      assert r1.value + (r2.value + r3.value) == (r1.value + r2.value) + r3.value;
    }
  }

  lemma EnrichAllUnfold(store: map<string, Value>, apps: seq<Application>)
    requires apps != []
    ensures EnrichAll(store, apps) == Then(EnrichOne(store, apps[0]), EnrichAll(store, apps[1..]))
  {
  }

  /** When the join rejects, it does so for the first application whose
      features entry is unreadable. */
  lemma {:induction false} EnrichAllFirstFailure(store: map<string, Value>, apps: seq<Application>)
    requires EnrichAll(store, apps).Failure?
    ensures
      exists i :: 0 <= i < |apps| && !FeaturesReadable(store, apps[i])
        && (forall j :: 0 <= j < i ==> FeaturesReadable(store, apps[j]))
        && EnrichAll(store, apps).error == FeaturesUnreadable(FeatureKey(apps[i]))
  {
    if FeaturesReadable(store, apps[0]) {
      EnrichAllFirstFailure(store, apps[1..]);
      var i :| 0 <= i < |apps[1..]| && !FeaturesReadable(store, apps[1..][i])
        && (forall j :: 0 <= j < i ==> FeaturesReadable(store, apps[1..][j]))
        && EnrichAll(store, apps[1..]).error == FeaturesUnreadable(FeatureKey(apps[1..][i]));
      assert forall j :: 1 <= j <= i ==> apps[j] == apps[1..][j - 1];
      assert apps[i + 1] == apps[1..][i];
    }
  }

  /** Every enriched record comes from an input application with a cached
      features record, and there are no more of them than inputs. */
  lemma {:induction false} EnrichAllFromInputs(store: map<string, Value>, apps: seq<Application>)
    requires EnrichAll(store, apps).Success?
    ensures |EnrichAll(store, apps).value| <= |apps|
    ensures FromInputs(store, apps, EnrichAll(store, apps).value)
  {
    if apps != [] {
      EnrichAllFromInputs(store, apps[1..]);
      assert forall a :: a in apps[1..] ==> a in apps;
    }
  }

  /** Enriching a concatenation enriches its parts. */
  lemma {:induction false} EnrichAllAppend(store: map<string, Value>, xs: seq<Application>, ys: seq<Application>)
    ensures EnrichAll(store, xs + ys) == Then(EnrichAll(store, xs), EnrichAll(store, ys))
  {
    if xs == [] {
      assert xs + ys == ys;
      var r := EnrichAll(store, ys);
      assert r.Success? ==> [] + r.value == r.value;
    } else {
      assert (xs + ys)[1..] == xs[1..] + ys;
      assert (xs + ys)[0] == xs[0];
      EnrichAllUnfold(store, xs + ys);
      EnrichAllUnfold(store, xs);
      EnrichAllAppend(store, xs[1..], ys);
      ThenAssociative(EnrichOne(store, xs[0]), EnrichAll(store, xs[1..]), EnrichAll(store, ys));
    }
  }

  lemma EnrichAllOne(store: map<string, Value>, a: Application)
    ensures EnrichAll(store, [a]) == EnrichOne(store, a)
  {
    assert [a][1..] == [];
    assert EnrichAll(store, [a][1..]) == Success([]);
    var one := EnrichOne(store, a);
    assert one.Success? ==> one.value + [] == one.value;
  }

  /** An application whose cached features are `null` is dropped without
      error: the join is the same as if it were not in the list. */
  lemma NullFeaturesExcluded(store: map<string, Value>, xs: seq<Application>, a: Application, ys: seq<Application>)
    requires FeatureKey(a) in store && store[FeatureKey(a)] == Null
    ensures EnrichAll(store, xs + [a] + ys) == EnrichAll(store, xs + ys)
  {
    EnrichAllOne(store, a);
    EnrichAllAppend(store, xs, [a]);
    var rx := EnrichAll(store, xs);
    assert rx.Success? ==> rx.value + [] == rx.value;
    assert EnrichAll(store, xs + [a]) == rx;
    EnrichAllAppend(store, xs + [a], ys);
    EnrichAllAppend(store, xs, ys);
  }

  /** An application with a cached features record yields exactly one
      enriched record, in its place. */
  lemma FeaturedIncluded(store: map<string, Value>, xs: seq<Application>, a: Application, ys: seq<Application>, f: Features)
    requires FeatureKey(a) in store && store[FeatureKey(a)] == FeatureRecord(f)
    ensures EnrichAll(store, xs + [a] + ys).Success? <==> EnrichAll(store, xs + ys).Success?
    ensures EnrichAll(store, xs + [a] + ys).Success? ==>
      && EnrichAll(store, xs).Success? && EnrichAll(store, ys).Success?
      && EnrichAll(store, xs + [a] + ys).value == EnrichAll(store, xs).value + [Enrich(a, f)] + EnrichAll(store, ys).value
  {
    EnrichAllAppend(store, xs + [a], ys);
    EnrichAllAppend(store, xs, [a]);
    EnrichAllAppend(store, xs, ys);
    EnrichAllOne(store, a);
  }

  // ---------------------------------------------------------------------
  // refId uniqueness (a precondition on the indexer's ids)

  ghost predicate DistinctRefIds(apps: seq<Application>) {
    forall i, j :: 0 <= i < j < |apps| ==> RefId(apps[i]) != RefId(apps[j])
  }

  ghost predicate DistinctStamps(apps: seq<Application>) {
    forall i, j :: 0 <= i < j < |apps| ==> apps[i].refId != apps[j].refId
  }

  /** When the raw applications have distinct composite ids, so do the
      enriched records. */
  lemma {:induction false} EnrichAllDistinct(store: map<string, Value>, apps: seq<Application>)
    requires DistinctRefIds(apps)
    requires EnrichAll(store, apps).Success?
    ensures DistinctStamps(EnrichAll(store, apps).value)
  {
    if apps != [] {
      var a := apps[0];
      var rest := EnrichAll(store, apps[1..]).value;
      assert DistinctRefIds(apps[1..]) by {
        forall i, j | 0 <= i < j < |apps[1..]| ensures RefId(apps[1..][i]) != RefId(apps[1..][j]) {
          assert apps[1..][i] == apps[i + 1] && apps[1..][j] == apps[j + 1];
        }
      }
      EnrichAllDistinct(store, apps[1..]);
      EnrichAllFromInputs(store, apps[1..]);
      forall x | x in rest ensures x.refId != Some(RefId(a)) {
        var b :| b in apps[1..] && FeatureKey(b) in store && store[FeatureKey(b)].FeatureRecord?
          && x == Enrich(b, store[FeatureKey(b)].features);
        var k :| 0 <= k < |apps[1..]| && apps[1..][k] == b;
        assert apps[k + 1] == b;
      }
    }
  }

  /** Two different members of a list with distinct stamps have
      different stamps. */
  lemma StampsOfMembers(s: seq<Application>)
    requires DistinctStamps(s)
    ensures forall x, y :: x in s && y in s && x != y ==> x.refId != y.refId
  {
    forall x, y | x in s && y in s && x != y ensures x.refId != y.refId {
      TwoPositions(s, x, y);
      var p, q :| 0 <= p < |s| && 0 <= q < |s| && p != q && s[p] == x && s[q] == y;
      if p < q {
        assert s[p].refId != s[q].refId;
      } else {
        assert s[q].refId != s[p].refId;
      }
    }
  }

  /** Reordering keeps distinct `refId`s distinct. */
  lemma PermutationKeepsDistinct(s: seq<Application>, t: seq<Application>)
    requires multiset(s) == multiset(t)
    requires DistinctStamps(s)
    ensures DistinctStamps(t)
  {
    StampsOfMembers(s);
    forall i, j | 0 <= i < j < |t| ensures t[i].refId != t[j].refId {
      var x, y := t[i], t[j];
      assert x in multiset(s) && y in multiset(s);
      if x == y {
        TwiceCounted(t, i, j);
        CountedTwice(s, x);
      }
    }
  }

  // ---------------------------------------------------------------------
  // The whole read path

  /** Gather, then join: the enriched list before sorting. */
  function Assemble(store: map<string, Value>, refs: seq<RoundRef>): Result<seq<Application>, Error> {
    var raw :- Gather(store, refs);
    EnrichAll(store, raw)
  }

  // ---------------------------------------------------------------------
  // The read path as evidently intended: no features, no entry

  /** The applications whose features key is present, in order. */
  function Present(store: map<string, Value>, apps: seq<Application>): (r: seq<Application>)
    ensures forall x :: x in r <==> x in apps && FeatureKey(x) in store
  {
    if apps == [] then []
    else (if FeatureKey(apps[0]) in store then [apps[0]] else []) + Present(store, apps[1..])
  }

  /** When every features key is present, nothing is left out. */
  lemma {:induction false} PresentAll(store: map<string, Value>, apps: seq<Application>)
    requires forall x :: x in apps ==> FeatureKey(x) in store
    ensures Present(store, apps) == apps
  {
    if apps != [] {
      assert forall x :: x in apps[1..] ==> x in apps;
      PresentAll(store, apps[1..]);
      assert [apps[0]] + apps[1..] == apps;
    }
  }

  /** The read path with applications that have no features entry left
      out silently, as `null` entries are, instead of rejecting. */
  function AssembleExcluding(store: map<string, Value>, refs: seq<RoundRef>): Result<seq<Application>, Error> {
    var raw :- Gather(store, refs);
    EnrichAll(store, Present(store, raw))
  }

  /** On a well-typed cache the corrected read path rejects only on a
      round-list miss, never for an application's features. */
  lemma ExcludingNeverUnreadable(store: map<string, Value>, refs: seq<RoundRef>)
    requires WellTyped(store)
    ensures AssembleExcluding(store, refs).Success? <==> Gather(store, refs).Success?
  {
    if Gather(store, refs).Success? {
      var p := Present(store, Gather(store, refs).value);
      forall i | 0 <= i < |p| ensures FeaturesReadable(store, p[i]) {
        assert p[i] in p;
        assert !IsListKey(FeatureKey(p[i]));
      }
    }
  }

  /** Wherever the read path as written succeeds, the corrected one gives
      the same records. */
  lemma ExcludingAgrees(store: map<string, Value>, refs: seq<RoundRef>)
    requires Assemble(store, refs).Success?
    ensures AssembleExcluding(store, refs) == Assemble(store, refs)
  {
    var raw := Gather(store, refs).value;
    assert forall i :: 0 <= i < |raw| ==> FeaturesReadable(store, raw[i]);
    PresentAll(store, raw);
  }

  /** The collation key of an application's project title. */
  function TitleKey(collate: string -> real): Application -> real {
    (a: Application) => collate(a.project.title)
  }

  ghost predicate SortedByTitle(s: seq<Application>, collate: string -> real) {
    forall i, j :: 0 <= i < j < |s| ==> collate(s[i].project.title) <= collate(s[j].project.title)
  }

  /** `getApplications(refs)`. `collate` stands for `localeCompare`: any
      total preorder on strings is comparison of some real-valued key. */
  method GetApplications(cache: Cache, refs: seq<RoundRef>, collate: string -> real)
    returns (r: Result<seq<Application>, Error>)
    requires cache.Valid()
    ensures r.Success? <==> Assemble(cache.store, refs).Success?
    ensures r.Failure? ==> r.error == Assemble(cache.store, refs).error
    ensures r.Success? ==> SortedByTitle(r.value, collate)
    ensures r.Success? ==> multiset(r.value) == multiset(Assemble(cache.store, refs).value)
    ensures r.Success? && DistinctRefIds(Gather(cache.store, refs).value) ==> DistinctStamps(r.value)
  {
    var raw := Gather(cache.store, refs);
    if raw.Failure? {
      return Failure(raw.error);
    }
    var enriched := EnrichAll(cache.store, raw.value);
    if enriched.Failure? {
      return Failure(enriched.error);
    }
    var list := enriched.value;
    var a := new Application[|list|](i requires 0 <= i < |list| => list[i]);
    assert a[..] == list;
    SortBy(a, TitleKey(collate));
    r := Success(a[..]);
    assert SortedBy(a[..], TitleKey(collate));
    if DistinctRefIds(raw.value) {
      EnrichAllDistinct(cache.store, raw.value);
      PermutationKeepsDistinct(list, a[..]);
    }
  }
}
