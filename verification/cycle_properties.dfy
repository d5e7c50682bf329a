/** What one refresh cycle guarantees about the cache, and that a
    successful cycle leaves the read path able to answer. */
module CycleProperties {
  import opened Wrappers
  import opened Records
  import opened Keys
  import opened KeyValue
  import opened Assembler
  import opened Orchestrator

  // ---------------------------------------------------------------------
  // The fetch stage

  /** Writing the fetched lists keeps the cache well typed. */
  lemma {:induction false} StoreListsWellTyped(store: map<string, Value>, refs: seq<RoundRef>, fetched: seq<Option<seq<Application>>>)
    requires |fetched| == |refs| && WellTyped(store)
    ensures WellTyped(StoreLists(store, refs, fetched))
  {
    if refs != [] {
      var n := |refs| - 1;
      StoreListsWellTyped(store, refs[..n], fetched[..n]);
    }
  }

  /** Every entry the fetch stage changes is the list key of a fetched round
      and holds one of that round's fetched lists; nothing else changes. */
  lemma {:induction false} StoreListsChangesOnlyLists(store: map<string, Value>, refs: seq<RoundRef>, fetched: seq<Option<seq<Application>>>)
    requires |fetched| == |refs|
    ensures var r := StoreLists(store, refs, fetched);
      forall k :: k in r && (k !in store || r[k] != store[k]) ==>
        exists i :: 0 <= i < |refs| && fetched[i].Some? && k == ListKey(refs[i]) && r[k] == AppList(fetched[i].value)
    ensures store.Keys <= StoreLists(store, refs, fetched).Keys
  {
    if refs != [] {
      var n := |refs| - 1;
      StoreListsChangesOnlyLists(store, refs[..n], fetched[..n]);
      var s := StoreLists(store, refs[..n], fetched[..n]);
      var r := StoreLists(store, refs, fetched);
      forall k | k in r && (k !in store || r[k] != store[k])
        ensures exists i :: 0 <= i < |refs| && fetched[i].Some? && k == ListKey(refs[i]) && r[k] == AppList(fetched[i].value)
      {
        if !(fetched[n].Some? && k == ListKey(refs[n])) {
          var i :| 0 <= i < n && fetched[..n][i].Some? && k == ListKey(refs[..n][i]) && s[k] == AppList(fetched[..n][i].value);
          assert fetched[..n][i] == fetched[i] && refs[..n][i] == refs[i];
        }
      }
    }
  }

  /** After the fetch stage every fetched round's key holds a list fetched
      for that round; when no other entry of `refs` names the same round,
      it holds exactly that round's list. */
  lemma {:induction false} StoreListsWritten(store: map<string, Value>, refs: seq<RoundRef>, fetched: seq<Option<seq<Application>>>, i: int)
    requires |fetched| == |refs| && 0 <= i < |refs| && fetched[i].Some?
    ensures var r := StoreLists(store, refs, fetched);
      ListKey(refs[i]) in r
      && (exists j :: 0 <= j < |refs| && refs[j] == refs[i] && fetched[j].Some? && r[ListKey(refs[i])] == AppList(fetched[j].value))
      && ((forall j :: 0 <= j < |refs| && j != i ==> refs[j] != refs[i]) ==> r[ListKey(refs[i])] == AppList(fetched[i].value))
  {
    var n := |refs| - 1;
    var r := StoreLists(store, refs, fetched);
    if i == n {
    } else if fetched[n].Some? && ListKey(refs[n]) == ListKey(refs[i]) {
      ListKeyInjective(refs[n], refs[i]);
    } else {
      StoreListsWritten(store, refs[..n], fetched[..n], i);
      var s := StoreLists(store, refs[..n], fetched[..n]);
      assert refs[..n][i] == refs[i] && fetched[..n][i] == fetched[i];
      var j :| 0 <= j < n && refs[..n][j] == refs[i] && fetched[..n][j].Some? && s[ListKey(refs[i])] == AppList(fetched[..n][j].value);
      assert refs[..n][j] == refs[j] && fetched[..n][j] == fetched[j];
      if forall j' :: 0 <= j' < |refs| && j' != i ==> refs[j'] != refs[i] {
        assert forall j' :: 0 <= j' < n && j' != i ==> refs[..n][j'] != refs[..n][i];
      }
    }
  }

  /** Each fetched list is part of the concatenation. */
  lemma {:induction false} ConcatContains(fetched: seq<Option<seq<Application>>>, j: int, x: Application)
    requires AllFetched(fetched) && 0 <= j < |fetched| && x in fetched[j].value
    ensures x in Concat(fetched)
  {
    var n := |fetched| - 1;
    if j < n {
      assert AllFetched(fetched[..n]);
      assert fetched[..n][j] == fetched[j];
      ConcatContains(fetched[..n], j, x);
    }
  }

  // ---------------------------------------------------------------------
  // The classification stage

  /** A present key is never written: cached entries, `null` included,
      survive classification unchanged. */
  lemma {:induction false} ClassifyKeepsPresent(store: map<string, Value>, apps: seq<Application>, ai: Application -> AiOutcome)
    ensures var c := Classify(store, apps, ai);
      forall k :: k in store ==> k in c.store && c.store[k] == store[k]
  {
    if apps != [] {
      ClassifyKeepsPresent(store, apps[..|apps| - 1], ai);
    }
  }

  /** The classifier is asked only about listed applications whose features
      key was not cached when the cycle started. */
  lemma {:induction false} ClassifyCallsOnlyUncached(store: map<string, Value>, apps: seq<Application>, ai: Application -> AiOutcome)
    ensures var c := Classify(store, apps, ai);
      forall x :: x in c.called ==> x in apps && FeatureKey(x) !in store
  {
    if apps != [] {
      var n := |apps| - 1;
      ClassifyCallsOnlyUncached(store, apps[..n], ai);
      ClassifyKeepsPresent(store, apps[..n], ai);
      assert forall x :: x in apps[..n] ==> x in apps;
    }
  }

  /** Two calls about the same key: the earlier one rejected. */
  ghost predicate AskedAgainOnlyAfterRejection(c: CycleState, ai: Application -> AiOutcome) {
    forall i, j :: 0 <= i < j < |c.called| && FeatureKey(c.called[i]) == FeatureKey(c.called[j]) ==>
      ai(c.called[i]).Malformed?
  }

  /** Every call that did not reject left its result under the key. */
  ghost predicate AnswersStored(c: CycleState, ai: Application -> AiOutcome) {
    forall i :: 0 <= i < |c.called| && !ai(c.called[i]).Malformed? ==> FeatureKey(c.called[i]) in c.store
  }

  /** The classifier is asked again about a key only after an earlier
      extraction for it rejected, and every other answer is cached. */
  lemma {:induction false} ClassifyAsksOnce(store: map<string, Value>, apps: seq<Application>, ai: Application -> AiOutcome)
    ensures AskedAgainOnlyAfterRejection(Classify(store, apps, ai), ai)
    ensures AnswersStored(Classify(store, apps, ai), ai)
  {
    if apps != [] {
      var n := |apps| - 1;
      ClassifyAsksOnce(store, apps[..n], ai);
      var p := Classify(store, apps[..n], ai);
      var c := Classify(store, apps, ai);
      var k := FeatureKey(apps[n]);
      assert c == Step(p, apps[n], ai);
      if k !in p.store {
        assert c.called == p.called + [apps[n]];
        assert p.store.Keys <= c.store.Keys;
        forall i, j | 0 <= i < j < |c.called| && FeatureKey(c.called[i]) == FeatureKey(c.called[j])
          ensures ai(c.called[i]).Malformed?
        {
          assert c.called[i] == p.called[i];
          if j < |p.called| {
            assert c.called[j] == p.called[j];
          }
        }
        forall i | 0 <= i < |c.called| && !ai(c.called[i]).Malformed?
          ensures FeatureKey(c.called[i]) in c.store
        {
          if i < |p.called| {
            assert c.called[i] == p.called[i];
          }
        }
      }
    }
  }

  /** Every entry the stage adds is the stored result (null for a failed
      call) of asking about an application with that key. */
  lemma {:induction false} ClassifyAddsResults(store: map<string, Value>, apps: seq<Application>, ai: Application -> AiOutcome)
    ensures var c := Classify(store, apps, ai);
      forall k :: k in c.store && k !in store ==>
        exists x ::
          x in c.called && FeatureKey(x) == k && !ai(x).Malformed?
          && c.store[k] == Stored(FromOutcome(ai(x)).features)
  {
    if apps != [] {
      var n := |apps| - 1;
      ClassifyAddsResults(store, apps[..n], ai);
      var p := Classify(store, apps[..n], ai);
      var c := Classify(store, apps, ai);
      forall k | k in c.store && k !in store
        ensures exists x ::
          x in c.called && FeatureKey(x) == k && !ai(x).Malformed?
          && c.store[k] == Stored(FromOutcome(ai(x)).features)
      {
        if k != FeatureKey(apps[n]) || k in p.store {
          var x :| x in p.called && FeatureKey(x) == k && !ai(x).Malformed?
            && p.store[k] == Stored(FromOutcome(ai(x)).features);
          assert x in c.called;
        } else {
          assert apps[n] in c.called;
        }
      }
    }
  }

  /** The stage rejects exactly when some extraction it asked for rejected;
      if it does not reject, every listed application has its key cached. */
  lemma {:induction false} ClassifyCovers(store: map<string, Value>, apps: seq<Application>, ai: Application -> AiOutcome)
    ensures var c := Classify(store, apps, ai);
      c.failed <==> exists x :: x in c.called && ai(x).Malformed?
    ensures var c := Classify(store, apps, ai);
      !c.failed ==> forall a :: a in apps ==> FeatureKey(a) in c.store
  {
    if apps != [] {
      var n := |apps| - 1;
      ClassifyCovers(store, apps[..n], ai);
      var p := Classify(store, apps[..n], ai);
      var c := Classify(store, apps, ai);
      assert forall x :: x in p.called ==> x in c.called;
      if !c.failed {
        forall a | a in apps ensures FeatureKey(a) in c.store {
          if a != apps[n] {
            assert a in apps[..n];
          }
        }
      }
    }
  }

  /** Classification keeps the cache well typed. */
  lemma {:induction false} ClassifyWellTyped(store: map<string, Value>, apps: seq<Application>, ai: Application -> AiOutcome)
    requires WellTyped(store)
    ensures WellTyped(Classify(store, apps, ai).store)
  {
    if apps != [] {
      ClassifyWellTyped(store, apps[..|apps| - 1], ai);
    }
  }

  // ---------------------------------------------------------------------
  // From refresh to read

  /** After a cycle that resolves, every requested round's list is cached. */
  lemma CycleListsCached(store: map<string, Value>, refs: seq<RoundRef>, fetched: seq<Option<seq<Application>>>, ai: Application -> AiOutcome)
    requires |fetched| == |refs|
    requires !Cycle(store, refs, fetched, ai).failed
    ensures forall i :: 0 <= i < |refs| ==> ListCached(Cycle(store, refs, fetched, ai).store, refs[i])
  {
    var lists := StoreLists(store, refs, fetched);
    var apps := Concat(fetched);
    var after := Cycle(store, refs, fetched, ai).store;
    assert after == Classify(lists, apps, ai).store;
    ClassifyKeepsPresent(lists, apps, ai);
    forall i | 0 <= i < |refs| ensures ListCached(after, refs[i]) {
      StoreListsWritten(store, refs, fetched, i);
    }
  }

  /** The list-key entries a resolved cycle leaves are lists the fetch stage
      wrote, so every application in them had its key classified. */
  lemma CycleListedKeysCached(store: map<string, Value>, refs: seq<RoundRef>, fetched: seq<Option<seq<Application>>>, ai: Application -> AiOutcome)
    requires WellTyped(store) && |fetched| == |refs|
    requires !Cycle(store, refs, fetched, ai).failed
    ensures var after := Cycle(store, refs, fetched, ai).store;
      forall i, x :: 0 <= i < |refs| && ListCached(after, refs[i]) && x in ListAt(after, refs[i]).value ==>
        FeaturesReadable(after, x)
  {
    var lists := StoreLists(store, refs, fetched);
    var apps := Concat(fetched);
    var after := Cycle(store, refs, fetched, ai).store;
    assert after == Classify(lists, apps, ai).store;
    ClassifyKeepsPresent(lists, apps, ai);
    ClassifyCovers(lists, apps, ai);
    StoreListsWellTyped(store, refs, fetched);
    ClassifyWellTyped(lists, apps, ai);
    forall i, x | 0 <= i < |refs| && ListCached(after, refs[i]) && x in ListAt(after, refs[i]).value
      ensures FeaturesReadable(after, x)
    {
      StoreListsWritten(store, refs, fetched, i);
      var j :| 0 <= j < |refs| && refs[j] == refs[i] && fetched[j].Some? && lists[ListKey(refs[i])] == AppList(fetched[j].value);
      ConcatContains(fetched, j, x);
      assert !IsListKey(FeatureKey(x));
    }
  }

  /** After a cycle that resolves, the read path over the same rounds
      succeeds: every round's list is cached and every gathered
      application's features key holds a features record or `null`. */
  lemma RefreshThenReadSucceeds(store: map<string, Value>, refs: seq<RoundRef>, fetched: seq<Option<seq<Application>>>, ai: Application -> AiOutcome)
    requires WellTyped(store) && |fetched| == |refs|
    requires !Cycle(store, refs, fetched, ai).failed
    ensures Gather(Cycle(store, refs, fetched, ai).store, refs).Success?
    ensures Assemble(Cycle(store, refs, fetched, ai).store, refs).Success?
  {
    var after := Cycle(store, refs, fetched, ai).store;
    CycleListsCached(store, refs, fetched, ai);
    CycleListedKeysCached(store, refs, fetched, ai);
    GatherMembers(after, refs);
  }

  // ---------------------------------------------------------------------
  // A rejected extraction and the read path

  /** One classification step leaves an uncached application's features
      entry readable exactly when its extraction did not reject. */
  lemma StepLeavesReadable(st: CycleState, app: Application, ai: Application -> AiOutcome)
    requires FeatureKey(app) !in st.store
    ensures FeaturesReadable(Step(st, app, ai).store, app) <==> !ai(app).Malformed?
  {
    if !ai(app).Malformed? {
      assert !Stored(FromOutcome(ai(app)).features).AppList?;
    }
  }

  /** A round listing one new application whose extraction rejects: the
      cycle rejects, nothing is stored for the application, and the read
      path as written then rejects for it, while the corrected read path
      returns an empty list. */
  lemma RejectedExtractionBlocksRead(store: map<string, Value>, r: RoundRef, x: Application, ai: Application -> AiOutcome)
    requires FeatureKey(x) !in store && ai(x).Malformed?
    ensures Cycle(store, [r], [Some([x])], ai).failed
    ensures Assemble(Cycle(store, [r], [Some([x])], ai).store, [r]) == Failure(FeaturesUnreadable(FeatureKey(x)))
    ensures AssembleExcluding(Cycle(store, [r], [Some([x])], ai).store, [r]) == Success([])
  {
    var fetched := [Some([x])];
    var lists := StoreLists(store, [r], fetched);
    assert [r][..0] == [] && fetched[..0] == [];
    assert StoreLists(store, [], []) == store;
    assert lists == store[ListKey(r) := AppList([x])];
    assert fetched[..0] == [] && Concat(fetched) == [x];
    assert FeatureKey(x) != ListKey(r) by {
      assert !IsListKey(FeatureKey(x)) && IsListKey(ListKey(r));
    }
    assert [x][..0] == [];
    assert AllFetched(fetched);
    assert Classify(lists, [x], ai) == Step(Classify(lists, [], ai), x, ai);
    assert Cycle(store, [r], fetched, ai) == Step(CycleState(lists, false, []), x, ai);
    GatherOne(lists, r);
    EnrichAllOne(lists, x);
    assert Present(lists, [x]) == [];
  }
}
