/**
 * The interest-selection logic of src/pages/IndustriesSelection.js: the icon
 * path of an industry, the sub-industry toggle, the search filter, the
 * failed-image fallback, the minimum-3 gate on Get News, and the React state
 * those handlers update, as a record that each event maps to a new record.
 * Case mapping is the ASCII part of `toLowerCase`.
 */
module Industries {
  import opened Wrappers
  import opened Strings
  import opened Api

  // ---------------------------------------------------------------------
  // Sequence helpers

  /** `a` is `b` with some elements dropped, the rest kept in order. */
  predicate IsSubsequence<T(==)>(a: seq<T>, b: seq<T>)
    decreases |b|
  {
    if a == [] then true
    else if b == [] then false
    else if a[0] == b[0] then IsSubsequence(a[1..], b[1..])
    else IsSubsequence(a, b[1..])
  }

  predicate NoDuplicates<T(==)>(s: seq<T>)
  {
    forall i, j :: 0 <= i < j < |s| ==> s[i] != s[j]
  }

  // ---------------------------------------------------------------------
  // getIndustryIconPath

  const IconPrefix: string := "/industry-icons/"
  const IconSuffix: string := ".png"
  const DefaultIcon: string := "/default-industry-icon.png"

  /** The characters the regular expression `[^a-z0-9]` does not remove. */
  predicate IsSlugChar(c: char)
  {
    'a' <= c <= 'z' || '0' <= c <= '9'
  }

  /** `.replace(/[^a-z0-9]/g, '')`. */
  function KeepSlugChars(s: string): (r: string)
    ensures |r| <= |s|
    ensures forall i :: 0 <= i < |r| ==> IsSlugChar(r[i])
  {
    if s == [] then []
    else (if IsSlugChar(s[0]) then [s[0]] else []) + KeepSlugChars(s[1..])
  }

  /** The file-name part of the icon path: lower-cased, then stripped to `[a-z0-9]`. */
  function Slug(name: string): (r: string)
    ensures |r| <= |name|
    ensures forall i :: 0 <= i < |r| ==> IsSlugChar(r[i])
  {
    KeepSlugChars(LowerAll(name))
  }

  /**
   * `getIndustryIconPath(name)`: always `/industry-icons/<m>.png` where the
   * middle part `m` contains only lower-case letters and digits.
   */
  function IconPath(name: string): (r: string)
    ensures |r| >= |IconPrefix| + |IconSuffix|
    ensures r[..|IconPrefix|] == IconPrefix
    ensures r[|r| - |IconSuffix|..] == IconSuffix
    ensures forall i :: |IconPrefix| <= i < |r| - |IconSuffix| ==> IsSlugChar(r[i])
  {
    IconPrefix + Slug(name) + IconSuffix
  }

  lemma {:induction false} KeepSlugCharsAppend(a: string, b: string)
    ensures KeepSlugChars(a + b) == KeepSlugChars(a) + KeepSlugChars(b)
  {
    if a != [] {
      assert (a + b)[0] == a[0];
      assert (a + b)[1..] == a[1..] + b;
      KeepSlugCharsAppend(a[1..], b);
      var head := if IsSlugChar(a[0]) then [a[0]] else [];
      assert KeepSlugChars(a + b) == head + (KeepSlugChars(a[1..]) + KeepSlugChars(b));
      assert KeepSlugChars(a) == head + KeepSlugChars(a[1..]);
      assert head + (KeepSlugChars(a[1..]) + KeepSlugChars(b))
          == (head + KeepSlugChars(a[1..])) + KeepSlugChars(b);
    } else {
      assert a + b == b;
    }
  }

  /** A string already made of `[a-z0-9]` passes through unchanged. */
  lemma {:induction false} KeepSlugCharsOfSlug(s: string)
    requires forall i :: 0 <= i < |s| ==> IsSlugChar(s[i])
    ensures KeepSlugChars(s) == s
  {
    if s != [] {
      KeepSlugCharsOfSlug(s[1..]);
    }
  }

  /** Names that differ only in letter case get the same icon. */
  lemma IconPathIgnoresCase(a: string, b: string)
    requires |a| == |b|
    requires forall i :: 0 <= i < |a| ==> ToLower(a[i]) == ToLower(b[i])
    ensures IconPath(a) == IconPath(b)
  {
    assert LowerAll(a) == LowerAll(b);
  }

  /** The slug of a concatenation is the concatenation of the slugs. */
  lemma SlugAppend(a: string, b: string)
    ensures Slug(a + b) == Slug(a) + Slug(b)
  {
    LowerAllAppend(a, b);
    KeepSlugCharsAppend(LowerAll(a), LowerAll(b));
  }

  /** Inserting a character that is not a letter or digit anywhere in a name leaves its icon unchanged. */
  lemma IconPathIgnoresPunctuation(a: string, c: char, b: string)
    requires !IsSlugChar(ToLower(c))
    ensures IconPath(a + [c] + b) == IconPath(a + b)
  {
    SlugAppend(a + [c], b);
    SlugAppend(a, [c]);
    SlugAppend(a, b);
    assert Slug([c]) == [] by {
      assert LowerAll([c]) == [ToLower(c)];
      assert [ToLower(c)][1..] == [];
    }
  }

  /** The middle part is already normal: using it as a name yields the same icon. */
  lemma IconPathOfSlug(name: string)
    ensures IconPath(Slug(name)) == IconPath(name)
  {
    var m := Slug(name);
    assert LowerAll(m) == m;
    KeepSlugCharsOfSlug(m);
  }

  /** The fallback icon is never the icon path of any name. */
  lemma DefaultIconIsNoIconPath(name: string)
    ensures IconPath(name) != DefaultIcon
  {
    assert IconPath(name)[1] == 'i';
    assert DefaultIcon[1] == 'd';
  }

  // ---------------------------------------------------------------------
  // handleSubIndustryToggle

  /** `prev.filter(item => item !== x)`. */
  function RemoveAll(xs: seq<string>, x: string): (r: seq<string>)
    ensures x !in r
    ensures forall y :: y != x ==> (y in r <==> y in xs)
    ensures multiset(r) == multiset(xs)[x := 0]
    ensures IsSubsequence(r, xs)
  {
    if xs == [] then []
    else if xs[0] == x then
      assert xs == [xs[0]] + xs[1..];
      var rest := RemoveAll(xs[1..], x);
      assert rest == [] || rest[0] != xs[0];
      rest
    else
      var rest := RemoveAll(xs[1..], x);
      assert xs == [xs[0]] + xs[1..];
      assert ([xs[0]] + rest)[1..] == rest;
      [xs[0]] + rest
  }

  /**
   * The toggle: an absent sub-industry is appended at the end; a present one
   * has every occurrence removed, the other elements keeping their order and
   * their number of occurrences.
   */
  function Toggle(prev: seq<string>, x: string): (r: seq<string>)
    ensures x in r <==> x !in prev
    ensures x !in prev ==> r == prev + [x]
    ensures x in prev ==> IsSubsequence(r, prev) && multiset(r) == multiset(prev)[x := 0]
  {
    if x in prev then RemoveAll(prev, x) else prev + [x]
  }

  lemma {:induction false} RemoveAllKeepsNoDuplicates(xs: seq<string>, x: string)
    requires NoDuplicates(xs)
    ensures NoDuplicates(RemoveAll(xs, x))
  {
    if xs != [] {
      assert NoDuplicates(xs[1..]) by {
        forall i, j | 0 <= i < j < |xs[1..]| ensures xs[1..][i] != xs[1..][j] {
          assert xs[1..][i] == xs[i + 1] && xs[1..][j] == xs[j + 1];
        }
      }
      RemoveAllKeepsNoDuplicates(xs[1..], x);
      if xs[0] != x {
        var rest := RemoveAll(xs[1..], x);
        assert xs[0] !in xs[1..];
        assert xs[0] !in rest;
        forall i, j | 0 <= i < j < |[xs[0]] + rest| ensures ([xs[0]] + rest)[i] != ([xs[0]] + rest)[j] {
          if i > 0 {
            assert ([xs[0]] + rest)[i] == rest[i - 1];
          }
        }
      }
    }
  }

  /** A duplicate-free selection stays duplicate-free under a toggle. */
  lemma ToggleKeepsNoDuplicates(prev: seq<string>, x: string)
    requires NoDuplicates(prev)
    ensures NoDuplicates(Toggle(prev, x))
  {
    if x in prev {
      RemoveAllKeepsNoDuplicates(prev, x);
    }
  }

  lemma {:induction false} RemoveAllAppended(xs: seq<string>, x: string)
    requires x !in xs
    ensures RemoveAll(xs + [x], x) == xs
  {
    if xs == [] {
      assert RemoveAll([x], x) == RemoveAll([], x);
    } else {
      assert (xs + [x])[0] == xs[0];
      assert (xs + [x])[1..] == xs[1..] + [x];
      RemoveAllAppended(xs[1..], x);
      assert [xs[0]] + xs[1..] == xs;
    }
  }

  /** Toggling an absent sub-industry twice restores the original selection. */
  lemma ToggleTwiceRestores(prev: seq<string>, x: string)
    requires x !in prev
    ensures Toggle(Toggle(prev, x), x) == prev
  {
    RemoveAllAppended(prev, x);
  }

  /** Toggling a present sub-industry twice moves it to the end. */
  lemma ToggleTwiceMovesToEnd(prev: seq<string>, x: string)
    requires x in prev
    ensures Toggle(Toggle(prev, x), x) == RemoveAll(prev, x) + [x]
  {
  }

  // ---------------------------------------------------------------------
  // filteredIndustries

  /** The filter's test: the name or some sub-industry contains the query, ignoring case. */
  predicate MatchesQuery(ind: Industry, query: string)
    ensures query == "" ==> MatchesQuery(ind, query)
  {
    ContainsEmpty(LowerAll(ind.name));
    Contains(LowerAll(ind.name), LowerAll(query)) ||
    exists k :: 0 <= k < |ind.subIndustries| && Contains(LowerAll(ind.subIndustries[k]), LowerAll(query))
  }

  /** Matching ignores the case of the query. */
  lemma MatchesQueryIgnoresCase(ind: Industry, query: string)
    ensures MatchesQuery(ind, query) == MatchesQuery(ind, LowerAll(query))
  {
    LowerAllIdempotent(query);
  }

  /** `industries.filter(industry => ...)`: the matching industries, in their order. */
  function FilterIndustries(industries: seq<Industry>, query: string): (r: seq<Industry>)
    ensures IsSubsequence(r, industries)
    ensures forall ind :: ind in r <==> ind in industries && MatchesQuery(ind, query)
  {
    if industries == [] then []
    else
      var rest := FilterIndustries(industries[1..], query);
      assert industries == [industries[0]] + industries[1..];
      if MatchesQuery(industries[0], query) then
        assert ([industries[0]] + rest)[1..] == rest;
        [industries[0]] + rest
      else
        assert rest == [] || rest[0] in industries[1..];
        rest
  }

  /** An empty query keeps every industry. */
  lemma {:induction false} FilterEmptyQueryKeepsAll(industries: seq<Industry>)
    ensures FilterIndustries(industries, "") == industries
  {
    if industries != [] {
      ContainsEmpty(LowerAll(industries[0].name));
      assert LowerAll("") == "";
      FilterEmptyQueryKeepsAll(industries[1..]);
    }
  }

  // ---------------------------------------------------------------------
  // failedImages

  /** `handleImageError(name)`: `new Set([...prev, name])`. */
  function RecordFailedImage(failed: set<string>, name: string): (r: set<string>)
    ensures name in r && failed <= r
    ensures forall n :: n in r && n !in failed ==> n == name
  {
    failed + {name}
  }

  /** The `src` of an industry's icon: the fallback once its image has failed. */
  function IconSource(failed: set<string>, name: string): (r: string)
    ensures r == DefaultIcon <==> name in failed
    ensures name !in failed ==> r == IconPath(name)
  {
    DefaultIconIsNoIconPath(name);
    if name in failed then DefaultIcon else IconPath(name)
  }

  /**
   * After a failure is recorded for a name, its icon is the fallback;
   * recording it again changes nothing, and other names keep their icon.
   */
  lemma FailedImageFallback(failed: set<string>, name: string, other: string)
    ensures IconSource(RecordFailedImage(failed, name), name) == DefaultIcon
    ensures RecordFailedImage(RecordFailedImage(failed, name), name) == RecordFailedImage(failed, name)
    ensures other != name ==> IconSource(RecordFailedImage(failed, name), other) == IconSource(failed, other)
    ensures other != name && other !in failed ==> IconSource(RecordFailedImage(failed, name), other) == IconPath(other)
  {
  }

  // ---------------------------------------------------------------------
  // The Get News gate

  const MinimumSelected := 3

  /** The button is enabled unless `selectedSubIndustries.length < 3`. */
  predicate GetNewsEnabled(selected: seq<string>)
    ensures GetNewsEnabled(selected) <==> |selected| >= 3
  {
    !(|selected| < MinimumSelected)
  }

  lemma {:induction false} DistinctCount(s: seq<string>)
    requires NoDuplicates(s)
    ensures |set x | x in s| == |s|
  {
    if s != [] {
      var t := s[1..];
      assert NoDuplicates(t) by {
        forall i, j | 0 <= i < j < |t| ensures t[i] != t[j] {
          assert t[i] == s[i + 1] && t[j] == s[j + 1];
        }
      }
      DistinctCount(t);
      assert s[0] !in t;
      assert (set x | x in s) == (set x | x in t) + {s[0]};
    }
  }

  /** With a duplicate-free selection, Get News is enabled exactly when at least 3 distinct sub-industries are chosen. */
  lemma GetNewsGate(selected: seq<string>)
    requires NoDuplicates(selected)
    ensures GetNewsEnabled(selected) <==> |set x | x in selected| >= 3
  {
    DistinctCount(selected);
  }

  // ---------------------------------------------------------------------
  // The screen's state and its events

  /** The `useState` variables of the screen. */
  datatype Screen = Screen(
    industries: seq<Industry>,
    selected: seq<string>,
    loading: bool,
    error: Option<string>,
    query: string,
    failedImages: set<string>)

  function Initial(): (s: Screen)
    ensures s.loading && s.error.None? && s.selected == [] && s.industries == []
    ensures s.query == "" && s.failedImages == {}
  {
    Screen([], [], true, None, "", {})
  }

  /** The value `await fetchIndustries()` resolved to, or its rejection. */
  datatype JsValue = JsArray(items: seq<Industry>) | NotAnArray
  datatype LoadOutcome = Resolved(value: JsValue) | Threw

  const LoadErrorMessage: string := "Failed to load industries"

  /** The state changes the screen's handlers make. */
  datatype Event =
    | LoadFinished(outcome: LoadOutcome)
    | ToggleSubIndustry(subIndustry: string)
    | ImageFailed(name: string)
    | SearchTyped(query: string)

  /** `Array.isArray(data) ? data : []`. */
  function ArrayOrEmpty(v: JsValue): (r: seq<Industry>)
    ensures v.NotAnArray? ==> r == []
    ensures v.JsArray? ==> r == v.items
  {
    match v
    case JsArray(items) => items
    case NotAnArray => []
  }

  /** The new state after one event. */
  function Step(s: Screen, e: Event): (t: Screen)
    ensures t.selected == (if e.ToggleSubIndustry? then Toggle(s.selected, e.subIndustry) else s.selected)
    ensures e.LoadFinished? ==> !t.loading
    ensures !e.LoadFinished? ==> t.loading == s.loading && t.industries == s.industries && t.error == s.error
    ensures e.LoadFinished? && e.outcome.Resolved? ==>
              t.industries == ArrayOrEmpty(e.outcome.value) && t.error == s.error
    ensures e.LoadFinished? && e.outcome.Threw? ==>
              t.error == Some(LoadErrorMessage) && t.industries == s.industries
    ensures t.failedImages == (if e.ImageFailed? then RecordFailedImage(s.failedImages, e.name) else s.failedImages)
    ensures t.query == (if e.SearchTyped? then e.query else s.query)
  {
    match e
    case LoadFinished(Resolved(v)) => s.(industries := ArrayOrEmpty(v), loading := false)
    case LoadFinished(Threw) => s.(error := Some(LoadErrorMessage), loading := false)
    case ToggleSubIndustry(sub) => s.(selected := Toggle(s.selected, sub))
    case ImageFailed(name) => s.(failedImages := RecordFailedImage(s.failedImages, name))
    case SearchTyped(q) => s.(query := q)
  }

  /** The state after a sequence of events. Loading never restarts and failed images are never forgotten. */
  function Run(s: Screen, events: seq<Event>): (t: Screen)
    ensures !s.loading ==> !t.loading
    ensures s.failedImages <= t.failedImages
    ensures (exists k :: 0 <= k < |events| && events[k].LoadFinished?) ==> !t.loading
    decreases |events|
  {
    if events == [] then s else Run(Step(s, events[0]), events[1..])
  }

  /** Whatever events happen, the selection never holds a sub-industry twice. */
  lemma {:induction false} RunKeepsNoDuplicates(s: Screen, events: seq<Event>)
    requires NoDuplicates(s.selected)
    ensures NoDuplicates(Run(s, events).selected)
    decreases |events|
  {
    if events != [] {
      if events[0].ToggleSubIndustry? {
        ToggleKeepsNoDuplicates(s.selected, events[0].subIndustry);
      }
      RunKeepsNoDuplicates(Step(s, events[0]), events[1..]);
    }
  }

  /** On every reachable state, Get News is enabled exactly when 3 distinct sub-industries are selected. */
  lemma ReachableGetNewsGate(events: seq<Event>)
    ensures var s := Run(Initial(), events);
      GetNewsEnabled(s.selected) <==> |set x | x in s.selected| >= 3
  {
    RunKeepsNoDuplicates(Initial(), events);
    GetNewsGate(Run(Initial(), events).selected);
  }

  /** How `loadIndustries` sees the result of `fetchIndustries`. */
  function OutcomeOf(r: Result<seq<Industry>, ApiError>): LoadOutcome
  {
    match r
    case Ok(xs) => Resolved(JsArray(xs))
    case Err(_) => Threw
  }

  /**
   * Loading from the industries endpoint: an ok reply installs the numbered
   * records (the `Array.isArray` guard never replaces them) and shows no
   * error; any other reply shows the load error and keeps the list empty.
   */
  lemma LoadFromApi(reply: Reply<IndustriesBody>)
    ensures var s := Step(Initial(), LoadFinished(OutcomeOf(FetchIndustries(reply))));
      !s.loading &&
      (reply.Response? && IsOk(reply) ==>
         s.error.None? && s.industries == TransformIndustries(reply.body.industries)) &&
      (!(reply.Response? && IsOk(reply)) ==>
         s.error == Some(LoadErrorMessage) && s.industries == [])
  {
  }

  // ---------------------------------------------------------------------
  // What the screen shows

  datatype Chip = Chip(text: string, highlighted: bool)
  datatype Card = Card(name: string, icon: string, chips: seq<Chip>)
  datatype View = Spinner | ErrorText(message: string) | Feed(cards: seq<Card>, getNewsEnabled: bool)

  /** The chips of one industry, highlighted when selected. */
  function Chips(subIndustries: seq<string>, selected: seq<string>): (r: seq<Chip>)
    ensures |r| == |subIndustries|
    ensures forall k :: 0 <= k < |r| ==>
              r[k].text == subIndustries[k] && (r[k].highlighted <==> subIndustries[k] in selected)
  {
    if subIndustries == [] then []
    else [Chip(subIndustries[0], subIndustries[0] in selected)] + Chips(subIndustries[1..], selected)
  }

  /** One card per filtered industry. */
  function Cards(industries: seq<Industry>, s: Screen): (r: seq<Card>)
    ensures |r| == |industries|
    ensures forall k :: 0 <= k < |r| ==>
              r[k].name == industries[k].name &&
              r[k].icon == IconSource(s.failedImages, industries[k].name) &&
              r[k].chips == Chips(industries[k].subIndustries, s.selected)
  {
    if industries == [] then []
    else
      var ind := industries[0];
      [Card(ind.name, IconSource(s.failedImages, ind.name), Chips(ind.subIndustries, s.selected))]
        + Cards(industries[1..], s)
  }

  /**
   * The screen: a spinner while loading, then the error text if loading
   * failed, otherwise one card per industry matching the search and the
   * Get News button, enabled exactly when 3 or more sub-industries are selected.
   */
  function Render(s: Screen): (v: View)
    ensures s.loading <==> v.Spinner?
    ensures v.ErrorText? <==> !s.loading && s.error.Some?
    ensures v.Feed? ==> (v.getNewsEnabled <==> |s.selected| >= 3)
    ensures v.Feed? ==> v.cards == Cards(FilterIndustries(s.industries, s.query), s)
    ensures v.ErrorText? ==> v.message == s.error.value
  {
    if s.loading then Spinner
    else if s.error.Some? then ErrorText(s.error.value)
    else Feed(Cards(FilterIndustries(s.industries, s.query), s), GetNewsEnabled(s.selected))
  }
}
