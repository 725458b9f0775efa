/**
 * The suggestion plugin of src/plugins/CustomDataPlguin.tsx: its trigger
 * configuration, the filtering of the data set by the typed query, the
 * options built from the filtered records, and the node inserted when an
 * option is chosen.
 *
 * The query reaches the filter as the source of a `"gi"` regular expression.
 * It is always a `matchingString` of the trigger matcher, which holds no
 * regex syntax character, so the expression is a case-insensitive literal
 * search; `QueryIsLiteral` proves that. The single regex object is shared by
 * all the keys of one `filter` pass, so its `lastIndex` carries from one
 * `test` to the next.
 */
module CustomDataPlugin {
  import opened Wrappers
  import opened TriggerMatcher
  import Nodes

  // ---------------------------------------------------------------------------
  // Data
  // ---------------------------------------------------------------------------

  datatype CustomData = CustomData(key: string, metadata: Nodes.Metadata)

  /** The sample data set the plugin filters. */
  const SampleData: seq<CustomData> := [
    CustomData("google_domain", Nodes.Metadata("1", "Google", "google.com")),
    CustomData("zomato_domain", Nodes.Metadata("2", "Zomato", "zomato.com"))
  ]

  /** A menu entry: the key and metadata of one record. */
  datatype TypeaheadOption = TypeaheadOption(key: string, metadata: Nodes.Metadata)

  /** The most options the menu shows. */
  const MaxOptions: nat := 10

  function Min(a: nat, b: nat): nat {
    if a <= b then a else b
  }

  /** `s.slice(0, n)`. */
  function Take<T>(s: seq<T>, n: nat): (r: seq<T>)
    ensures |r| == Min(n, |s|) && r == s[..|r|]
  {
    s[..Min(n, |s|)]
  }

  /** `a` is `b` with some elements left out, the rest kept in order. */
  predicate IsSubsequence<T(==)>(a: seq<T>, b: seq<T>)
    decreases |b|
  {
    || a == []
    || (&& b != []
        && ((a != [] && a[0] == b[0] && IsSubsequence(a[1..], b[1..])) || IsSubsequence(a, b[1..])))
  }

  lemma {:induction false} SubsequenceOfItself<T>(s: seq<T>)
    ensures IsSubsequence(s, s)
    decreases |s|
  {
    if s != [] {
      SubsequenceOfItself(s[1..]);
    }
  }

  lemma {:induction false} SubsequencePrefix<T>(a: seq<T>, b: seq<T>, k: nat)
    requires IsSubsequence(a, b) && k <= |a|
    ensures IsSubsequence(a[..k], b)
    decreases |b|
  {
    if k == 0 {
      assert a[..k] == [];
    } else if a[0] == b[0] && IsSubsequence(a[1..], b[1..]) {
      SubsequencePrefix(a[1..], b[1..], k - 1);
      assert a[..k][1..] == a[1..][..k - 1];
    } else {
      SubsequencePrefix(a, b[1..], k);
    }
  }

  // ---------------------------------------------------------------------------
  // The case-insensitive literal search
  // ---------------------------------------------------------------------------

  /** The regex syntax characters; a pattern without them matches itself literally. */
  predicate IsRegexSyntax(c: char) {
    c in "^$\\.*+?()[]{}|/"
  }

  predicate IsLiteralPattern(q: string) {
    forall i :: 0 <= i < |q| ==> !IsRegexSyntax(q[i])
  }

  /** The case canonicalisation of an ignore-case match, on ASCII letters. */
  function Canonicalize(c: char): (d: char)
    ensures !('a' <= d <= 'z')
    ensures 'a' <= c <= 'z' ==> 'A' <= d <= 'Z' && d as int - 'A' as int == c as int - 'a' as int
    ensures !('a' <= c <= 'z') ==> d == c
  {
    if 'a' <= c <= 'z' then (c as int - 32) as char else c
  }

  /** `q` occurs in `key` at position `f`, ignoring case. */
  predicate OccursAt(key: string, q: string, f: nat) {
    f + |q| <= |key| && forall k :: 0 <= k < |q| ==> Canonicalize(key[f + k]) == Canonicalize(q[k])
  }

  /** `q` occurs in `key` somewhere at or after `from`, ignoring case. */
  predicate OccursFrom(key: string, q: string, from: nat) {
    exists f :: from <= f <= |key| && OccursAt(key, q, f)
  }

  /** The match attempts of one `test`: positions `from`, `from + 1`, ... ; the first occurrence. */
  function SearchFrom(key: string, q: string, from: nat): (r: Option<nat>)
    ensures r.Some? ==> from <= r.value && OccursAt(key, q, r.value)
    ensures r.Some? ==> forall g :: from <= g < r.value ==> !OccursAt(key, q, g)
    ensures r.None? ==> forall g: nat :: from <= g ==> !OccursAt(key, q, g)
    decreases |key| - from
  {
    if from + |q| > |key| then None
    else if OccursAt(key, q, from) then Some(from)
    else SearchFrom(key, q, from + 1)
  }

  /**
   * `regex.test(key)` for the shared global regex: the verdict and the new
   * `lastIndex`. The search starts at `lastIndex`; on success `lastIndex`
   * becomes the end of the occurrence found, on failure it is reset to 0.
   */
  function RegexTest(key: string, q: string, lastIndex: nat): (r: (bool, nat))
    ensures r.0 <==> OccursFrom(key, q, lastIndex)
    ensures r.0 ==> lastIndex + |q| <= r.1 <= |key| && OccursAt(key, q, r.1 - |q|)
    ensures r.0 ==> forall g :: lastIndex <= g < r.1 - |q| ==> !OccursAt(key, q, g)
    ensures !r.0 ==> r.1 == 0
  {
    if lastIndex > |key| then (false, 0)
    else
      match SearchFrom(key, q, lastIndex)
      case Some(f) => (true, f + |q|)
      case None => (false, 0)
  }

  // ---------------------------------------------------------------------------
  // Filtering
  // ---------------------------------------------------------------------------

  /** The `filter` pass as written: one test per record, `lastIndex` carried along. */
  function FilterShared(options: seq<CustomData>, q: string, lastIndex: nat): (r: seq<CustomData>)
    ensures |r| <= |options|
    ensures forall o :: o in r ==> o in options
    decreases |options|
  {
    if options == [] then []
    else
      var t := RegexTest(options[0].key, q, lastIndex);
      (if t.0 then [options[0]] else []) + FilterShared(options[1..], q, t.1)
  }

  /** The filter as intended: each record tested on its own, from the start of its key. */
  function FilterContaining(options: seq<CustomData>, q: string): (r: seq<CustomData>)
    ensures |r| <= |options|
    ensures forall o :: o in r ==> o in options && OccursFrom(o.key, q, 0)
    decreases |options|
  {
    if options == [] then []
    else (if OccursFrom(options[0].key, q, 0) then [options[0]] else []) + FilterContaining(options[1..], q)
  }

  /** The shared-`lastIndex` pass keeps records in order and only those whose key holds the query. */
  lemma {:induction false} FilterSharedSound(options: seq<CustomData>, q: string, lastIndex: nat)
    ensures IsSubsequence(FilterShared(options, q, lastIndex), options)
    ensures forall i :: 0 <= i < |FilterShared(options, q, lastIndex)| ==>
              OccursFrom(FilterShared(options, q, lastIndex)[i].key, q, 0)
    decreases |options|
  {
    if options != [] {
      var t := RegexTest(options[0].key, q, lastIndex);
      var rest := FilterShared(options[1..], q, t.1);
      FilterSharedSound(options[1..], q, t.1);
      if t.0 {
        var f :| lastIndex <= f <= |options[0].key| && OccursAt(options[0].key, q, f);
        assert ([options[0]] + rest)[1..] == rest;
      } else {
        assert [] + rest == rest;
      }
    }
  }

  /** How often the intended filter keeps a record: as often as the input holds it, when its key holds the query. */
  lemma {:induction false} FilterContainingCounts(options: seq<CustomData>, q: string)
    ensures forall o :: multiset(FilterContaining(options, q))[o]
                        == if OccursFrom(o.key, q, 0) then multiset(options)[o] else 0
    decreases |options|
  {
    if options != [] {
      var hit := if OccursFrom(options[0].key, q, 0) then [options[0]] else [];
      var rest := FilterContaining(options[1..], q);
      FilterContainingCounts(options[1..], q);
      assert options == [options[0]] + options[1..];
      assert multiset(options) == multiset([options[0]]) + multiset(options[1..]);
      assert FilterContaining(options, q) == hit + rest;
      assert multiset(hit + rest) == multiset(hit) + multiset(rest);
    }
  }

  /** The intended filter keeps, in order, exactly the records whose key holds the query, each as often as given. */
  lemma {:induction false} FilterContainingExact(options: seq<CustomData>, q: string)
    ensures IsSubsequence(FilterContaining(options, q), options)
    ensures forall o :: o in FilterContaining(options, q) <==> o in options && OccursFrom(o.key, q, 0)
    ensures forall o :: multiset(FilterContaining(options, q))[o]
                        == if OccursFrom(o.key, q, 0) then multiset(options)[o] else 0
    decreases |options|
  {
    FilterContainingCounts(options, q);
    if options != [] {
      var rest := FilterContaining(options[1..], q);
      FilterContainingExact(options[1..], q);
      assert options == [options[0]] + options[1..];
      if OccursFrom(options[0].key, q, 0) {
        assert ([options[0]] + rest)[1..] == rest;
      } else {
        assert [] + rest == rest;
      }
    }
  }

  /** One step of the shared pass: the record at `i` is tested from `lastIndex`, the rest from its result. */
  lemma FilterSharedStep(options: seq<CustomData>, i: nat, q: string, lastIndex: nat)
    requires i < |options|
    ensures var t := RegexTest(options[i].key, q, lastIndex);
      FilterShared(options[i..], q, lastIndex)
        == (if t.0 then [options[i]] else []) + FilterShared(options[i + 1..], q, t.1)
  {
    assert options[i..][1..] == options[i + 1..];
  }

  /** One step of the intended filter: the record at `i` is tested from the start of its key. */
  lemma FilterContainingStep(options: seq<CustomData>, i: nat, q: string)
    requires i < |options|
    ensures FilterContaining(options[i..], q)
        == (if RegexTest(options[i].key, q, 0).0 then [options[i]] else []) + FilterContaining(options[i + 1..], q)
  {
    assert options[i..][1..] == options[i + 1..];
  }

  /** The invariant of `ContainingFilterPass` carried over one record. */
  lemma ContainingPassStep(options: seq<CustomData>, i: nat, q: string, kept: seq<CustomData>)
    requires i < |options|
    ensures var hit := if RegexTest(options[i].key, q, 0).0 then [options[i]] else [];
      kept + FilterContaining(options[i..], q) == (kept + hit) + FilterContaining(options[i + 1..], q)
  {
    var hit := if RegexTest(options[i].key, q, 0).0 then [options[i]] else [];
    var rest := FilterContaining(options[i + 1..], q);
    FilterContainingStep(options, i, q);
    assert kept + (hit + rest) == (kept + hit) + rest;
  }

  /** An empty query occurs at every `lastIndex` it meets, so every record is kept. */
  lemma {:induction false} EmptyQueryKeepsAll(options: seq<CustomData>)
    ensures FilterShared(options, "", 0) == options
    decreases |options|
  {
    if options != [] {
      assert OccursAt(options[0].key, "", 0);
      EmptyQueryKeepsAll(options[1..]);
    }
  }

  /** `domain` first occurs in `google_domain` at 7, so its test moves `lastIndex` to 13. */
  lemma GoogleDomainTest(key: string, q: string)
    requires key == "google_domain" && q == "domain"
    ensures RegexTest(key, q, 0) == (true, 13)
  {
    assert OccursAt(key, q, 7);
    forall g | 0 <= g < 7 ensures !OccursAt(key, q, g) {
      assert Canonicalize(key[g]) != Canonicalize(q[0]);
    }
  }

  /** Searched from 13, its length, `zomato_domain` holds no `domain`, although it does from 0. */
  lemma ZomatoDomainTest(key: string, q: string)
    requires key == "zomato_domain" && q == "domain"
    ensures OccursFrom(key, q, 0)
    ensures RegexTest(key, q, 13) == (false, 0)
  {
    assert OccursAt(key, q, 7);
  }

  /**
   * With the sample data, the query `domain` keeps only `google_domain`:
   * matching it leaves `lastIndex` at 13, the length of `zomato_domain`, so
   * the second key is searched from its end, although it contains the query.
   */
  lemma SharedLastIndexDropsMatch(data: seq<CustomData>, q: string)
    requires data == SampleData && q == "domain"
    ensures OccursFrom(data[1].key, q, 0)
    ensures FilterShared(data, q, 0) == [data[0]]
  {
    GoogleDomainTest(data[0].key, q);
    ZomatoDomainTest(data[1].key, q);
    assert data[1..][1..] == [];
  }

  /** The corrected filter keeps both sample records for the query `domain`. */
  lemma CorrectedKeepsBoth(data: seq<CustomData>, q: string)
    requires data == SampleData && q == "domain"
    ensures FilterContaining(data, q) == data
  {
    assert OccursAt(data[0].key, q, 7);
    ZomatoDomainTest(data[1].key, q);
    assert data[1..][1..] == [];
  }

  /**
   * `options.filter((option) => regex.test(option.key))` with the one global
   * regex: each test starts where the previous success ended.
   */
  method SharedFilterPass(options: seq<CustomData>, q: string) returns (kept: seq<CustomData>)
    ensures kept == FilterShared(options, q, 0)
  {
    kept := [];
    var lastIndex: nat := 0;
    var i := 0;
    while i < |options|
      invariant 0 <= i <= |options|
      invariant kept + FilterShared(options[i..], q, lastIndex) == FilterShared(options, q, 0)
    {
      var t := RegexTest(options[i].key, q, lastIndex);
      FilterSharedStep(options, i, q, lastIndex);
      var hit := if t.0 then [options[i]] else [];
      var rest := FilterShared(options[i + 1..], q, t.1);
      assert FilterShared(options[i..], q, lastIndex) == hit + rest;
      assert kept + (hit + rest) == (kept + hit) + rest;
      kept := kept + hit;
      lastIndex := t.1;
      i := i + 1;
    }
    assert options[i..] == [];
  }

  /** The same pass with every key tested from its start, as a non-global regex would. */
  method ContainingFilterPass(options: seq<CustomData>, q: string) returns (kept: seq<CustomData>)
    ensures kept == FilterContaining(options, q)
  {
    kept := [];
    var i := 0;
    while i < |options|
      invariant 0 <= i <= |options|
      invariant kept + FilterContaining(options[i..], q) == FilterContaining(options, q)
    {
      var hit := if RegexTest(options[i].key, q, 0).0 then [options[i]] else [];
      ContainingPassStep(options, i, q, kept);
      kept := kept + hit;
      i := i + 1;
    }
    assert options[i..] == [];
  }

  /**
   * `createFilteredOptions` as written: no query gives the first ten
   * records; otherwise one shared regex tests every key in order, then the
   * first ten survivors are kept.
   */
  method CreateFilteredOptions(options: seq<CustomData>, query: Option<string>) returns (r: seq<CustomData>)
    requires query.Some? ==> IsLiteralPattern(query.value)
    ensures |r| <= MaxOptions
    ensures query.None? ==> r == Take(options, MaxOptions)
    ensures query.Some? ==> r == Take(FilterShared(options, query.value, 0), MaxOptions)
    ensures IsSubsequence(r, options)
    ensures query.Some? ==> forall i :: 0 <= i < |r| ==> OccursFrom(r[i].key, query.value, 0)
  {
    if query.None? {
      r := Take(options, MaxOptions);
      SubsequenceOfItself(options);
      SubsequencePrefix(options, options, |r|);
      return;
    }
    var kept := SharedFilterPass(options, query.value);
    r := Take(kept, MaxOptions);
    FilterSharedSound(options, query.value, 0);
    SubsequencePrefix(kept, options, |r|);
  }

  /** The corrected filter: each key is tested from its start. */
  method CreateFilteredOptionsCorrected(options: seq<CustomData>, query: Option<string>) returns (r: seq<CustomData>)
    requires query.Some? ==> IsLiteralPattern(query.value)
    ensures |r| <= MaxOptions
    ensures query.None? ==> r == Take(options, MaxOptions)
    ensures query.Some? ==> r == Take(FilterContaining(options, query.value), MaxOptions)
    ensures IsSubsequence(r, options)
    ensures query.Some? ==> forall o :: o in r ==> OccursFrom(o.key, query.value, 0)
  {
    if query.None? {
      r := Take(options, MaxOptions);
      SubsequenceOfItself(options);
      SubsequencePrefix(options, options, |r|);
      return;
    }
    var kept := ContainingFilterPass(options, query.value);
    r := Take(kept, MaxOptions);
    FilterContainingExact(options, query.value);
    SubsequencePrefix(kept, options, |r|);
  }

  // ---------------------------------------------------------------------------
  // Options, trigger and selection
  // ---------------------------------------------------------------------------

  /** The `useMemo` mapping: one menu option per filtered record. */
  function ToTypeaheadOptions(data: seq<CustomData>): (r: seq<TypeaheadOption>)
    ensures |r| == |data|
    ensures forall i :: 0 <= i < |data| ==> r[i].key == data[i].key && r[i].metadata == data[i].metadata
    decreases |data|
  {
    if data == [] then []
    else [TypeaheadOption(data[0].key, data[0].metadata)] + ToTypeaheadOptions(data[1..])
  }

  const PluginTrigger: char := '{'
  const PluginTriggerOptions: TriggerOptions := TriggerOptions(Some(0), None)

  /** `checkForTriggerMatch`: the matcher for `{` with `minLength: 0` and the default `maxLength`. */
  function CheckForTriggerMatch(text: string): (r: Option<MenuTextMatch>)
    ensures r.Some? ==> IsTriggerMatch(text, '{', Limits(0, 75), r.value)
  {
    TriggerMatch(PluginTrigger, PluginTriggerOptions, text)
  }

  /**
   * `checkForCustomDataTriggerMatch`: the match is passed through unchanged;
   * a match also switches the suggestions on, otherwise the switch keeps its value.
   */
  function CheckForCustomDataTriggerMatch(text: string, showSuggestions: bool): (r: (Option<MenuTextMatch>, bool))
    ensures r.0 == TriggerMatch('{', TriggerOptions(Some(0), None), text)
    ensures r.1 <==> showSuggestions || r.0.Some?
  {
    var m := CheckForTriggerMatch(text);
    (m, if m.Some? then true else showSuggestions)
  }

  /** The plugin limits: 0 and 75. */
  lemma PluginLimits()
    ensures ResolveOptions(PluginTriggerOptions) == Limits(0, 75)
  {
  }

  /** A bare `{` at the cursor matches with an empty query, whatever precedes it. */
  lemma BareBraceMatches(prefix: string, showSuggestions: bool)
    ensures CheckForCustomDataTriggerMatch(prefix + "{", showSuggestions) == (Some(MenuTextMatch(|prefix|, "", "{")), true)
  {
    assert AllValid(PluginTrigger, "");
    LastTriggerDecides(PluginTrigger, PluginTriggerOptions, prefix, "");
    assert prefix + [PluginTrigger] + "" == prefix + "{";
  }

  /** The query the plugin receives never holds a regex syntax character. */
  lemma QueryIsLiteral(text: string)
    requires CheckForTriggerMatch(text).Some?
    ensures IsLiteralPattern(CheckForTriggerMatch(text).value.matchingString)
  {
    var m := CheckForTriggerMatch(text).value;
    ResultShape(PluginTrigger, PluginTriggerOptions, text);
    forall i | 0 <= i < |m.matchingString| ensures !IsRegexSyntax(m.matchingString[i]) {
      var c := m.matchingString[i];
      assert c in m.matchingString;
      assert !IsPunctuation(c);
    }
  }

  /** `onSelectOption`: the inserted node's value is the option's key and its payload the metadata. */
  method SelectOption(option: TypeaheadOption) returns (node: Nodes.CustomeNode)
    ensures fresh(node) && node.State() == Nodes.CreatedState(option.key, Some(option.metadata))
    ensures node.text == option.key && node.DisplayText() == "{" + option.key + "}"
  {
    node := Nodes.CreateCustomeNode(option.key, Some(option.metadata));
  }
}
