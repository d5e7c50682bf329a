/** The data logic of the home page (src/components/Homepage.tsx): the
    lower-cased tag lists, the case-insensitive tag index behind the
    suggestion list, the conjunctive filter, and editing the selection. */
module Homepage {
  import opened Wrappers
  import opened Records
  import opened Sorting

  // ---------------------------------------------------------------------
  // Lower-casing

  predicate IsUpper(c: char) {
    'A' <= c <= 'Z'
  }

  /** `toLowerCase` on one character, for ASCII letters. */
  function LowerChar(c: char): (d: char)
    ensures !IsUpper(d)
    ensures IsUpper(c) ==> d as int == c as int + 32
    ensures !IsUpper(c) ==> d == c
  {
    if IsUpper(c) then (c as int + 32) as char else c
  }

  /** `String.prototype.toLowerCase`, for ASCII letters. */
  function Lower(s: string): (r: string)
    ensures |r| == |s|
    ensures forall i :: 0 <= i < |s| ==> r[i] == LowerChar(s[i])
  {
    if s == [] then [] else [LowerChar(s[0])] + Lower(s[1..])
  }

  /** `tags.map(tag => tag.toLowerCase())`. */
  function LowerCaseTags(tags: seq<string>): (r: seq<string>)
    ensures |r| == |tags|
    ensures forall i :: 0 <= i < |tags| ==> r[i] == Lower(tags[i])
  {
    if tags == [] then [] else [Lower(tags[0])] + LowerCaseTags(tags[1..])
  }

  /** Lower-casing twice is lower-casing once. */
  lemma LowerIdempotent(s: string)
    ensures Lower(Lower(s)) == Lower(s)
  {
    var l := Lower(s);
    assert forall i :: 0 <= i < |l| ==> Lower(l)[i] == l[i];
  }

  /** A string without capitals is its own lower-case form. */
  lemma LowerFixed(s: string)
    requires forall i :: 0 <= i < |s| ==> !IsUpper(s[i])
    ensures Lower(s) == s
  {
    assert forall i :: 0 <= i < |s| ==> Lower(s)[i] == s[i];
  }

  /** The lower-cased tag lists of an application (`lowerCaseTags`). */
  datatype TaggedApplication = TaggedApplication(app: Application, lowerCaseTags: seq<string>)

  /** Every application delivered to the page carries its tag list. */
  predicate AllTagged(apps: seq<Application>) {
    forall i :: 0 <= i < |apps| ==> apps[i].tags.Some?
  }

  function TagEach(apps: seq<Application>): (r: seq<TaggedApplication>)
    requires AllTagged(apps)
    ensures |r| == |apps|
    ensures forall i :: 0 <= i < |apps| ==>
      r[i].app == apps[i] && r[i].lowerCaseTags == LowerCaseTags(apps[i].tags.value)
  {
    if apps == [] then []
    else [TaggedApplication(apps[0], LowerCaseTags(apps[0].tags.value))] + TagEach(apps[1..])
  }

  /** `applicationsWithTags`: absent while the applications are loading. */
  function WithTags(apps: Option<seq<Application>>): (r: Option<seq<TaggedApplication>>)
    requires apps.Some? ==> AllTagged(apps.value)
    ensures r.Some? <==> apps.Some?
  {
    match apps
    case None => None
    case Some(xs) => Some(TagEach(xs))
  }

  // ---------------------------------------------------------------------
  // The tag index (`availableTags`, `addTag`)

  /** The spelling first seen for a lower-cased tag and how often it occurs. */
  datatype TagEntry = TagEntry(tag: string, count: nat)

  /** `addTag(tag)`: counts one more occurrence, or records the spelling of
      the first one. */
  function AddTag(m: map<string, TagEntry>, tag: string): (r: map<string, TagEntry>)
    ensures r.Keys == m.Keys + {Lower(tag)}
  {
    var k := Lower(tag);
    if k in m then m[k := m[k].(count := m[k].count + 1)]
    else m[k := TagEntry(tag, 1)]
  }

  /** The dictionary after `addTag` on every tag in order. */
  function Index(tags: seq<string>): map<string, TagEntry> {
    if tags == [] then map[]
    else AddTag(Index(tags[..|tags| - 1]), tags[|tags| - 1])
  }

  /** The tags the page counts: those of every application that has a tag
      list, in order. */
  function TagsOf(apps: seq<Application>): seq<string> {
    if apps == [] then []
    else
      var last := apps[|apps| - 1];
      TagsOf(apps[..|apps| - 1]) + (if last.tags.Some? then last.tags.value else [])
  }

  function AllTags(apps: Option<seq<Application>>): seq<string> {
    if apps.None? then [] else TagsOf(apps.value)
  }

  /** The index of a tag sequence extended by one tag. */
  lemma IndexSnoc(tags: seq<string>, t: string)
    ensures Index(tags + [t]) == AddTag(Index(tags), t)
  {
    assert (tags + [t])[..|tags|] == tags;
  }

  /** The lower-cased tags of a sequence extended by one tag. */
  lemma {:induction false} LowerCaseTagsSnoc(tags: seq<string>)
    requires tags != []
    ensures LowerCaseTags(tags) == LowerCaseTags(tags[..|tags| - 1]) + [Lower(tags[|tags| - 1])]
  {
    var n := |tags| - 1;
    var l := LowerCaseTags(tags);
    var r := LowerCaseTags(tags[..n]) + [Lower(tags[n])];
    forall i | 0 <= i < |l| ensures l[i] == r[i] {
      if i < n {
        assert tags[..n][i] == tags[i];
      }
    }
  }

  /** The index has an entry for exactly the lower-cased tags. */
  lemma {:induction false} IndexKeys(tags: seq<string>)
    ensures forall k :: k in Index(tags) <==> k in LowerCaseTags(tags)
  {
    if tags != [] {
      var n := |tags| - 1;
      IndexKeys(tags[..n]);
      LowerCaseTagsSnoc(tags);
      assert Index(tags).Keys == Index(tags[..n]).Keys + {Lower(tags[n])};
    }
  }

  /** Each entry counts every case-insensitive occurrence of its tag. */
  lemma {:induction false} IndexCount(tags: seq<string>)
    ensures forall k :: k in Index(tags) ==> Index(tags)[k].count == multiset(LowerCaseTags(tags))[k]
  {
    if tags != [] {
      var n := |tags| - 1;
      var p := Index(tags[..n]);
      var k0 := Lower(tags[n]);
      IndexCount(tags[..n]);
      IndexKeys(tags[..n]);
      LowerCaseTagsSnoc(tags);
      var before := multiset(LowerCaseTags(tags[..n]));
      assert multiset(LowerCaseTags(tags)) == before + multiset{k0};
      if k0 !in p {
        assert k0 !in LowerCaseTags(tags[..n]);
        assert before[k0] == 0;
      }
    }
  }

  /** Each entry keeps the spelling of the first occurrence of its tag. */
  lemma {:induction false} IndexLabel(tags: seq<string>, i: int)
    requires 0 <= i < |tags|
    requires forall j :: 0 <= j < i ==> Lower(tags[j]) != Lower(tags[i])
    ensures Lower(tags[i]) in Index(tags) && Index(tags)[Lower(tags[i])].tag == tags[i]
  {
    var n := |tags| - 1;
    var p := Index(tags[..n]);
    assert Index(tags) == AddTag(p, tags[n]);
    if i == n {
      IndexKeys(tags[..n]);
    } else {
      assert tags[..n][i] == tags[i];
      assert forall j :: 0 <= j < i ==> tags[..n][j] == tags[j];
      IndexLabel(tags[..n], i);
    }
  }

  /** `for (const tag of application.tags) addTag(tag)`: the dictionary,
      so far the index of `prior`, updated in place tag by tag. */
  method AddEach(ghost prior: seq<string>, m0: map<string, TagEntry>, ts: seq<string>)
    returns (m: map<string, TagEntry>)
    requires m0 == Index(prior)
    ensures m == Index(prior + ts)
  {
    m := m0;
    var j := 0;
    assert prior + ts[..0] == prior;
    while j < |ts|
      invariant 0 <= j <= |ts|
      invariant m == Index(prior + ts[..j])
    {
      IndexSnoc(prior + ts[..j], ts[j]);
      assert prior + ts[..j + 1] == prior + ts[..j] + [ts[j]];
      var lowerCaseTag := Lower(ts[j]);
      if lowerCaseTag in m {
        m := m[lowerCaseTag := m[lowerCaseTag].(count := m[lowerCaseTag].count + 1)];
      } else {
        m := m[lowerCaseTag := TagEntry(ts[j], 1)];
      }
      j := j + 1;
    }
    assert ts[..j] == ts;
  }

  /** `applications?.forEach(...)`: the dictionary built over the
      applications that have a tag list. */
  method CountTags(apps: Option<seq<Application>>) returns (m: map<string, TagEntry>)
    ensures m == Index(AllTags(apps))
  {
    m := map[];
    if apps.None? {
      return;
    }
    var xs := apps.value;
    var i := 0;
    while i < |xs|
      invariant 0 <= i <= |xs|
      invariant m == Index(TagsOf(xs[..i]))
    {
      assert xs[..i + 1][..i] == xs[..i];
      if xs[i].tags.Some? {
        m := AddEach(TagsOf(xs[..i]), m, xs[i].tags.value);
      } else {
        assert TagsOf(xs[..i]) + [] == TagsOf(xs[..i]);
      }
      i := i + 1;
    }
    assert xs[..i] == xs;
  }

  // ---------------------------------------------------------------------
  // The suggestion list

  /** A suggestion offered to the tag picker and a selected tag alike:
      `{ value, label }`, the label held in `caption`. */
  datatype TagOption = TagOption(value: string, caption: string)

  /** An element of `Object.entries(tags)`: a lower-cased tag and its record. */
  type Entry = (string, TagEntry)

  /** One dictionary entry is listed once, with its own record. */
  ghost predicate EntriesOf(m: map<string, TagEntry>, es: seq<Entry>) {
    && (forall i :: 0 <= i < |es| ==> es[i].0 in m && es[i].1 == m[es[i].0])
    && (forall i, j :: 0 <= i < j < |es| ==> es[i].0 != es[j].0)
  }

  /** `Object.entries(tags)`: every entry once. The enumeration order is
      left unspecified. */
  method Entries(m: map<string, TagEntry>) returns (es: seq<Entry>)
    ensures EntriesOf(m, es)
    ensures forall k :: k in m ==> exists i :: 0 <= i < |es| && es[i].0 == k
  {
    es := [];
    var rest := m.Keys;
    while rest != {}
      invariant rest <= m.Keys
      invariant EntriesOf(m, es)
      invariant forall i :: 0 <= i < |es| ==> es[i].0 !in rest
      invariant forall k :: k in m && k !in rest ==> exists i :: 0 <= i < |es| && es[i].0 == k
      decreases |rest|
    {
      var k :| k in rest;
      ghost var before := es;
      es := es + [(k, m[k])];
      rest := rest - {k};
      assert forall i :: 0 <= i < |before| ==> es[i] == before[i];
      assert es[|before|] == (k, m[k]);
    }
  }

  /** The sort key of `(a, b) => b[1].count - a[1].count`. */
  function ByCountDescending(e: Entry): real {
    -(e.1.count as real)
  }

  function Options(es: seq<Entry>): (r: seq<TagOption>)
    ensures |r| == |es|
    ensures forall i :: 0 <= i < |es| ==> r[i] == TagOption(es[i].0, es[i].1.tag)
  {
    if es == [] then [] else [TagOption(es[0].0, es[0].1.tag)] + Options(es[1..])
  }

  /** Reordering a list of entries keeps it a list of entries. */
  lemma ReorderedEntries(m: map<string, TagEntry>, s: seq<Entry>, t: seq<Entry>)
    requires EntriesOf(m, s) && multiset(s) == multiset(t)
    ensures EntriesOf(m, t)
    ensures forall i :: 0 <= i < |s| ==> s[i] in t
  {
    forall i | 0 <= i < |t| ensures t[i].0 in m && t[i].1 == m[t[i].0] {
      assert t[i] in multiset(s);
    }
    forall i, j | 0 <= i < j < |t| ensures t[i].0 != t[j].0 {
      if t[i].0 == t[j].0 {
        assert t[i] in multiset(s) && t[j] in multiset(s);
        TwiceCounted(t, i, j);
        CountedTwice(s, t[i]);
        assert false;
      }
    }
    forall i | 0 <= i < |s| ensures s[i] in t {
      assert s[i] in multiset(t);
    }
  }

  /** What the suggestion list promises about a dictionary: one option
      per entry, valued by its key and labelled with its first spelling,
      by non-increasing count. */
  ghost predicate Suggests(m: map<string, TagEntry>, r: seq<TagOption>) {
    && (forall i :: 0 <= i < |r| ==> r[i].value in m && r[i].caption == m[r[i].value].tag)
    && (forall k :: k in m ==> exists i :: 0 <= i < |r| && r[i].value == k)
    && (forall i, j :: 0 <= i < j < |r| ==> r[i].value != r[j].value)
    && (forall i, j :: 0 <= i < j < |r| ==> m[r[i].value].count >= m[r[j].value].count)
  }

  /** The entries of a dictionary, sorted by descending count, make a list
      of suggestions for it. */
  lemma SortedEntriesSuggest(m: map<string, TagEntry>, es: seq<Entry>, sorted: seq<Entry>)
    requires EntriesOf(m, es)
    requires forall k :: k in m ==> exists i :: 0 <= i < |es| && es[i].0 == k
    requires multiset(es) == multiset(sorted)
    requires SortedBy(sorted, ByCountDescending)
    ensures Suggests(m, Options(sorted))
  {
    ReorderedEntries(m, es, sorted);
    var r := Options(sorted);
    forall k | k in m ensures exists i :: 0 <= i < |r| && r[i].value == k {
      var p :| 0 <= p < |es| && es[p].0 == k;
      var q :| 0 <= q < |sorted| && sorted[q] == es[p];
      assert r[q].value == k;
    }
    forall i, j | 0 <= i < j < |r| ensures m[r[i].value].count >= m[r[j].value].count {
      assert ByCountDescending(sorted[i]) <= ByCountDescending(sorted[j]);
    }
  }

  /** `availableTags`: the dictionary's entries sorted by descending count
      and turned into options. */
  method AvailableTags(apps: Option<seq<Application>>) returns (r: seq<TagOption>)
    ensures Suggests(Index(AllTags(apps)), r)
  {
    var m := CountTags(apps);
    var es := Entries(m);
    var a := new Entry[|es|](i requires 0 <= i < |es| => es[i]);
    assert a[..] == es;
    SortBy(a, ByCountDescending);
    SortedEntriesSuggest(m, es, a[..]);
    r := Options(a[..]);
  }

  // ---------------------------------------------------------------------
  // Filtering

  /** `selected.every(tag => application.lowerCaseTags.includes(tag.value))`. */
  predicate Matches(x: TaggedApplication, selected: seq<TagOption>) {
    forall i :: 0 <= i < |selected| ==> selected[i].value in x.lowerCaseTags
  }

  /** `applicationsWithTags.filter(...)`: the matching applications. */
  function Filter(xs: seq<TaggedApplication>, selected: seq<TagOption>): (r: seq<TaggedApplication>)
    ensures |r| <= |xs|
    ensures forall x :: x in r <==> x in xs && Matches(x, selected)
  {
    if xs == [] then []
    else (if Matches(xs[0], selected) then [xs[0]] else []) + Filter(xs[1..], selected)
  }

  /** `filteredApplications`: nothing while loading. */
  function FilteredApplications(apps: Option<seq<TaggedApplication>>, selected: seq<TagOption>): (r: seq<TaggedApplication>)
    ensures apps.None? ==> r == []
    ensures apps.Some? ==> forall x :: x in r <==> x in apps.value && Matches(x, selected)
  {
    match apps
    case None => []
    case Some(xs) => Filter(xs, selected)
  }

  /** Filtering keeps relative order: it distributes over concatenation. */
  lemma {:induction false} FilterAppend(xs: seq<TaggedApplication>, ys: seq<TaggedApplication>, selected: seq<TagOption>)
    ensures Filter(xs + ys, selected) == Filter(xs, selected) + Filter(ys, selected)
  {
    if xs == [] {
      assert xs + ys == ys;
    } else {
      assert (xs + ys)[1..] == xs[1..] + ys;
      FilterAppend(xs[1..], ys, selected);
    }
  }

  /** With nothing selected every application is shown. */
  lemma {:induction false} FilterNothingSelected(xs: seq<TaggedApplication>)
    ensures Filter(xs, []) == xs
  {
    if xs != [] {
      FilterNothingSelected(xs[1..]);
    }
  }

  /** Selecting one more tag filters the current result further. */
  lemma {:induction false} FilterNarrows(xs: seq<TaggedApplication>, selected: seq<TagOption>, t: TagOption)
    ensures Filter(xs, Add(selected, t)) == Filter(Filter(xs, selected), [t])
  {
    if xs != [] {
      FilterNarrows(xs[1..], selected, t);
      var x := xs[0];
      assert Matches(x, Add(selected, t)) <==> Matches(x, selected) && Matches(x, [t]) by {
        if Matches(x, selected) && Matches(x, [t]) {
          forall i | 0 <= i < |Add(selected, t)| ensures Add(selected, t)[i].value in x.lowerCaseTags {
            if i == |selected| {
              assert [t][0] == t;
            }
          }
        }
        if Matches(x, Add(selected, t)) {
          assert Add(selected, t)[|selected|] == t;
        }
      }
      FilterAppend(if Matches(x, selected) then [x] else [], Filter(xs[1..], selected), [t]);
      if Matches(x, selected) {
        assert [x][1..] == [];
      }
    }
  }

  /** Hence selecting one more tag never shows an application more. */
  lemma FilterShrinks(xs: seq<TaggedApplication>, selected: seq<TagOption>, t: TagOption)
    ensures |Filter(xs, Add(selected, t))| <= |Filter(xs, selected)|
    ensures forall x :: x in Filter(xs, Add(selected, t)) ==> x in Filter(xs, selected)
  {
    FilterNarrows(xs, selected, t);
  }

  // ---------------------------------------------------------------------
  // Editing the selection (`onAdd`, `onDelete`)

  /** `onAdd`: `[...selected, newTag]`. */
  function Add(selected: seq<TagOption>, t: TagOption): (r: seq<TagOption>)
    ensures |r| == |selected| + 1 && r[..|selected|] == selected && r[|selected|] == t
  {
    selected + [t]
  }

  /** `onDelete(tagIndex)`: `selected.filter((_, i) => i !== tagIndex)`. */
  function Delete(selected: seq<TagOption>, tagIndex: int): (r: seq<TagOption>)
    ensures |r| <= |selected|
  {
    if selected == [] then []
    else (if tagIndex == 0 then [] else [selected[0]]) + Delete(selected[1..], tagIndex - 1)
  }

  /** Deleting removes exactly the entry at the index, keeping the others in
      order; an index outside the list changes nothing. */
  lemma {:induction false} DeleteRemovesOne(selected: seq<TagOption>, tagIndex: int)
    ensures 0 <= tagIndex < |selected| ==>
      Delete(selected, tagIndex) == selected[..tagIndex] + selected[tagIndex + 1..]
    ensures !(0 <= tagIndex < |selected|) ==> Delete(selected, tagIndex) == selected
  {
    if selected != [] {
      DeleteRemovesOne(selected[1..], tagIndex - 1);
      if tagIndex == 0 {
        assert selected[..0] + selected[1..] == selected[1..];
      } else if 0 < tagIndex < |selected| {
        assert selected[..tagIndex] == [selected[0]] + selected[1..][..tagIndex - 1];
        assert selected[tagIndex + 1..] == selected[1..][tagIndex..];
      } else {
        assert [selected[0]] + selected[1..] == selected;
      }
    }
  }

  /** Deleting the tag just added restores the selection. */
  lemma AddThenDelete(selected: seq<TagOption>, t: TagOption)
    ensures Delete(Add(selected, t), |selected|) == selected
  {
    DeleteRemovesOne(Add(selected, t), |selected|);
    assert Add(selected, t)[..|selected|] == selected;
  }

  /** Deleting a selected tag never hides an application. */
  lemma DeleteWidens(xs: seq<TaggedApplication>, selected: seq<TagOption>, tagIndex: int)
    ensures forall x :: x in Filter(xs, selected) ==> x in Filter(xs, Delete(selected, tagIndex))
  {
    DeleteRemovesOne(selected, tagIndex);
    var d := Delete(selected, tagIndex);
    forall x | x in Filter(xs, selected) ensures Matches(x, d) {
      forall i | 0 <= i < |d| ensures d[i].value in x.lowerCaseTags {
        if 0 <= tagIndex < |selected| && i >= tagIndex {
          assert d[i] == selected[i + 1];
        } else {
          assert d[i] == selected[i];
        }
      }
    }
  }

  // ---------------------------------------------------------------------
  // The dictionary as written

  /** Property names every plain object inherits whose spelling is already
      lower case: `tags[name]` finds them on an empty dictionary. */
  const InheritedNames: set<string> := {"constructor", "__proto__"}

  /** `addTag` as written on a plain `{}`: for an inherited name the truthy
      inherited member is taken for an entry, its `count` bumped, and no
      entry is ever added. */
  function AddTagAsWritten(m: map<string, TagEntry>, tag: string): map<string, TagEntry> {
    if Lower(tag) in InheritedNames then m else AddTag(m, tag)
  }

  function IndexAsWritten(tags: seq<string>): map<string, TagEntry> {
    if tags == [] then map[]
    else AddTagAsWritten(IndexAsWritten(tags[..|tags| - 1]), tags[|tags| - 1])
  }

  /** The dictionary as written is the intended index with the inherited
      names missing. */
  lemma {:induction false} IndexAsWrittenDropsInherited(tags: seq<string>)
    ensures IndexAsWritten(tags) == map k | k in Index(tags) && k !in InheritedNames :: Index(tags)[k]
  {
    if tags != [] {
      IndexAsWrittenDropsInherited(tags[..|tags| - 1]);
    }
  }

  /** A tag spelled "Constructor" is counted by the index but never offered
      as a suggestion by the code as written. */
  lemma ConstructorTagDropped()
    ensures "constructor" in Index(["Constructor"])
    ensures "constructor" !in IndexAsWritten(["Constructor"])
  {
    assert Lower("Constructor") == "constructor";
    assert ["Constructor"][..0] == [];
  }
}
