/**
 * The typeahead trigger matcher returned by `useBasicTypeaheadTriggerMatch`.
 *
 * The hook builds one regular expression from the trigger character and
 * `maxLength`,
 *
 *     (^||\()([T]((?:V){0,maxLength}))$      with V = [^T PUNCTUATION \s]
 *
 * runs it once on the text before the cursor and turns the match into a
 * `MenuTextMatch`. This module gives three views of that function:
 *   - `Exec` / `TriggerMatch`: the pattern as the ECMAScript engine runs it
 *     (leftmost start position, alternatives of group 1 in order, the bounded
 *     greedy loop, backtracking into `$`), then the `minLength` check and the
 *     record built from the capture groups;
 *   - `IsTriggerMatch`: a declarative description of an acceptable result;
 *   - `ScanBackward`: an independent matcher walking back from the cursor.
 * The lemmas show that the three agree and pin the consequences of the pattern.
 */
module TriggerMatcher {
  import opened Wrappers

  // ---------------------------------------------------------------------------
  // Character classes
  // ---------------------------------------------------------------------------

  /** The characters listed by `PUNCTUATION`, with the regex escapes removed. */
  const Punctuation: string := ".,+*?$@|#{}()^-[]\\/!%'\"~=<>_:;"

  /** A `PUNCTUATION` character: printable ASCII, never a letter or a digit. */
  predicate IsPunctuation(c: char)
    ensures IsPunctuation(c) ==> '!' <= c <= '~'
    ensures IsPunctuation(c) ==> !('a' <= c <= 'z' || 'A' <= c <= 'Z' || '0' <= c <= '9')
  {
    c in Punctuation
  }

  /** The ECMAScript class `\s`: the WhiteSpace and LineTerminator code points. */
  predicate IsWhitespace(c: char)
    ensures IsWhitespace(c) ==> c == ' ' || !(' ' <= c <= '~')
  {
    || c == '\t' || c == '\n' || c == '\U{000B}' || c == '\U{000C}' || c == '\r'
    || c == ' ' || c == '\U{00A0}' || c == '\U{1680}'
    || ('\U{2000}' <= c <= '\U{200A}')
    || c == '\U{2028}' || c == '\U{2029}' || c == '\U{202F}' || c == '\U{205F}'
    || c == '\U{3000}' || c == '\U{FEFF}'
  }

  /** The class `[^T PUNCTUATION \s]` that the run after the trigger is made of. */
  predicate ValidChar(trigger: char, c: char)
    ensures ('a' <= c <= 'z' || 'A' <= c <= 'Z' || '0' <= c <= '9') && c != trigger ==> ValidChar(trigger, c)
    ensures ValidChar(trigger, c) ==> c != trigger && c != ' ' && c != '('
  {
    c != trigger && !IsPunctuation(c) && !IsWhitespace(c)
  }

  predicate AllValid(trigger: char, s: string) {
    forall i :: 0 <= i < |s| ==> ValidChar(trigger, s[i])
  }

  /**
   * A trigger that the pattern reads as one literal character, both in `[T]`
   * and after `[^`: `]` would close the class early, `^` would turn `[^]`
   * into "any character", and `\` would escape the closing bracket.
   */
  predicate SafeTrigger(trigger: char) {
    trigger != ']' && trigger != '^' && trigger != '\\'
  }

  // ---------------------------------------------------------------------------
  // Configuration and results
  // ---------------------------------------------------------------------------

  /** The hook's second argument; an absent field takes its default. */
  datatype TriggerOptions = TriggerOptions(minLength: Option<nat>, maxLength: Option<nat>)

  /** The options once the defaults are applied. */
  datatype Limits = Limits(minLength: nat, maxLength: nat)

  const DefaultMinLength: nat := 1
  const DefaultMaxLength: nat := 75

  function ResolveOptions(options: TriggerOptions): (l: Limits)
    ensures options.minLength.None? ==> l.minLength == 1
    ensures options.maxLength.None? ==> l.maxLength == 75
    ensures options.minLength.Some? ==> l.minLength == options.minLength.value
    ensures options.maxLength.Some? ==> l.maxLength == options.maxLength.value
  {
    Limits(
      match options.minLength case Some(n) => n case None => DefaultMinLength,
      match options.maxLength case Some(n) => n case None => DefaultMaxLength)
  }

  /** What `RegExp.prototype.exec` returns: the start index and capture groups 1 to 3. */
  datatype RegexMatch = RegexMatch(index: nat, group1: string, group2: string, group3: string)

  /** The record the trigger function returns. */
  datatype MenuTextMatch = MenuTextMatch(leadOffset: nat, matchingString: string, replaceableString: string)

  // ---------------------------------------------------------------------------
  // The pattern, as the regex engine runs it
  // ---------------------------------------------------------------------------

  /**
   * Position `p` holds the trigger and everything after it is a run of at
   * most `maxLength` valid characters: the only way `[T]((?:V){0,max})$`
   * can match from `p`.
   */
  predicate TriggerAt(text: string, trigger: char, maxLength: nat, p: nat) {
    && p < |text|
    && text[p] == trigger
    && |text| - p - 1 <= maxLength
    && forall m :: p < m < |text| ==> ValidChar(trigger, text[m])
  }

  /** The greedy phase of `(?:V){0,bound}` from position `j`: how many characters it takes. */
  function GreedyRun(text: string, trigger: char, j: nat, bound: nat): (k: nat)
    requires j <= |text|
    ensures j + k <= |text| && k <= bound
    ensures forall m :: j <= m < j + k ==> ValidChar(trigger, text[m])
    ensures j + k < |text| && k < bound ==> !ValidChar(trigger, text[j + k])
    decreases bound
  {
    if bound == 0 || j == |text| || !ValidChar(trigger, text[j]) then 0
    else 1 + GreedyRun(text, trigger, j + 1, bound - 1)
  }

  /**
   * The backtracking phase: the loop gives back one character at a time
   * until `$` holds after the `k` taken so far; `$` (no `m` flag) holds only
   * at the end of the text, so giving back never helps.
   */
  function BacktrackToEnd(text: string, j: nat, k: nat): (c: Option<nat>)
    requires j + k <= |text|
    ensures c.Some? <==> j + k == |text|
    ensures c.Some? ==> j + c.value == |text|
    decreases k
  {
    if j + k == |text| then Some(k)
    else if k == 0 then None
    else BacktrackToEnd(text, j, k - 1)
  }

  /** `[T]((?:V){0,maxLength})$` tried at position `j`: the length of group 3 when it matches. */
  function MatchTriggerAt(text: string, trigger: char, maxLength: nat, j: nat): (c: Option<nat>)
    ensures c.Some? <==> TriggerAt(text, trigger, maxLength, j)
    ensures c.Some? ==> j + 1 + c.value == |text|
  {
    if j < |text| && text[j] == trigger then
      BacktrackToEnd(text, j + 1, GreedyRun(text, trigger, j + 1, maxLength))
    else None
  }

  /**
   * Every match of the pattern: group 1 is empty or the `(` at `index`, and
   * from `index + |group1|` on the text is the trigger followed by group 3.
   */
  predicate IsRegexMatch(text: string, trigger: char, maxLength: nat, m: RegexMatch) {
    var p := m.index + |m.group1|;
    && TriggerAt(text, trigger, maxLength, p)
    && (m.group1 == "" || (m.group1 == "(" && text[m.index] == '('))
    && m.group2 == text[p..]
    && m.group3 == text[p + 1..]
  }

  /** The whole pattern tried at start position `i`, group 1's alternatives in order. */
  function ExecAt(text: string, trigger: char, maxLength: nat, i: nat): (r: Option<RegexMatch>)
    requires i <= |text|
    ensures r.Some? ==> r.value.index == i && IsRegexMatch(text, trigger, maxLength, r.value)
    ensures TriggerAt(text, trigger, maxLength, i) ==> r.Some?
    ensures i < |text| && text[i] == '(' && TriggerAt(text, trigger, maxLength, i + 1) ==> r.Some?
  {
    var here := MatchTriggerAt(text, trigger, maxLength, i);
    if i == 0 && here.Some? then
      // `^`
      Some(RegexMatch(i, "", text[i..i + 1 + here.value], text[i + 1..i + 1 + here.value]))
    else if here.Some? then
      // the empty alternative
      Some(RegexMatch(i, "", text[i..i + 1 + here.value], text[i + 1..i + 1 + here.value]))
    else if i < |text| && text[i] == '(' && MatchTriggerAt(text, trigger, maxLength, i + 1).Some? then
      // `\(`
      var c := MatchTriggerAt(text, trigger, maxLength, i + 1).value;
      Some(RegexMatch(i, text[i..i + 1], text[i + 1..i + 2 + c], text[i + 2..i + 2 + c]))
    else None
  }

  /** The search of `exec` (no `g` flag): start positions `i`, `i + 1`, ..., `|text|`, first success wins. */
  function ExecFrom(text: string, trigger: char, maxLength: nat, i: nat): (r: Option<RegexMatch>)
    requires i <= |text| + 1
    ensures r.Some? ==> i <= r.value.index && IsRegexMatch(text, trigger, maxLength, r.value)
    ensures r.Some? ==> forall k :: i <= k < r.value.index ==> ExecAt(text, trigger, maxLength, k).None?
    ensures r.None? ==> forall p: nat :: i <= p ==> !TriggerAt(text, trigger, maxLength, p)
    decreases |text| + 1 - i
  {
    if i == |text| + 1 then None
    else
      match ExecAt(text, trigger, maxLength, i)
      case Some(m) => Some(m)
      case None => ExecFrom(text, trigger, maxLength, i + 1)
  }

  /** `TypeaheadTriggerRegex.exec(text)`. */
  function Exec(text: string, trigger: char, maxLength: nat): (r: Option<RegexMatch>)
    ensures r.Some? ==> IsRegexMatch(text, trigger, maxLength, r.value)
    ensures r.Some? ==> forall k :: 0 <= k < r.value.index ==> ExecAt(text, trigger, maxLength, k).None?
    ensures r.None? ==> forall p: nat :: !TriggerAt(text, trigger, maxLength, p)
  {
    ExecFrom(text, trigger, maxLength, 0)
  }

  /**
   * The trigger function: run the pattern, refuse a run shorter than
   * `minLength`, and report the match from group 2's start.
   */
  function TriggerMatch(trigger: char, options: TriggerOptions, text: string): (r: Option<MenuTextMatch>)
    requires SafeTrigger(trigger)
    ensures r.Some? ==> IsTriggerMatch(text, trigger, ResolveOptions(options), r.value)
  {
    var limits := ResolveOptions(options);
    match Exec(text, trigger, limits.maxLength)
    case None => None
    case Some(m) =>
      if |m.group3| >= limits.minLength then
        RegexMatchReport(text, trigger, limits, m);
        Some(MenuTextMatch(m.index + |m.group1|, m.group3, m.group2))
      else None
  }

  // ---------------------------------------------------------------------------
  // The declarative description and a second matcher
  // ---------------------------------------------------------------------------

  /**
   * An acceptable answer for `text`: the text ends with the trigger at
   * `leadOffset` followed by `matchingString`, a run of valid characters whose
   * length the limits allow; `replaceableString` is that suffix.
   */
  predicate IsTriggerMatch(text: string, trigger: char, limits: Limits, r: MenuTextMatch) {
    && r.leadOffset < |text|
    && text[r.leadOffset] == trigger
    && r.replaceableString == text[r.leadOffset..]
    && r.replaceableString == [trigger] + r.matchingString
    && AllValid(trigger, r.matchingString)
    && limits.minLength <= |r.matchingString| <= limits.maxLength
  }

  /** Walks back from the cursor; `k` valid characters have been passed so far. */
  function ScanFrom(text: string, trigger: char, limits: Limits, k: nat): (r: Option<MenuTextMatch>)
    requires k <= |text| && k <= limits.maxLength
    requires forall m :: |text| - k <= m < |text| ==> ValidChar(trigger, text[m])
    ensures r.Some? ==> IsTriggerMatch(text, trigger, limits, r.value)
    ensures r.None? ==> forall m :: !IsTriggerMatch(text, trigger, limits, m)
    decreases |text| - k
  {
    if k == |text| then
      NoMatchBeyond(text, trigger, limits, k);
      None
    else
      var p := |text| - 1 - k;
      if text[p] == trigger then
        if limits.minLength <= k then
          assert text[p..] == [trigger] + text[p + 1..];
          Some(MenuTextMatch(p, text[p + 1..], text[p..]))
        else
          NoMatchAt(text, trigger, limits, p);
          None
      else if ValidChar(trigger, text[p]) && k < limits.maxLength then
        ScanFrom(text, trigger, limits, k + 1)
      else
        NoMatchBeyond(text, trigger, limits, k);
        None
  }

  /** The reference matcher: scan back from the end of the text. */
  function ScanBackward(text: string, trigger: char, limits: Limits): Option<MenuTextMatch> {
    ScanFrom(text, trigger, limits, 0)
  }

  // ---------------------------------------------------------------------------
  // Lemmas about the declarative description
  // ---------------------------------------------------------------------------

  /** An acceptable answer describes a trigger position of the pattern. */
  lemma IsTriggerMatchTriggerAt(text: string, trigger: char, limits: Limits, r: MenuTextMatch)
    requires IsTriggerMatch(text, trigger, limits, r)
    ensures TriggerAt(text, trigger, limits.maxLength, r.leadOffset)
    ensures r.matchingString == text[r.leadOffset + 1..]
    ensures |r.matchingString| == |text| - r.leadOffset - 1
  {
    var p := r.leadOffset;
    assert r.matchingString == r.replaceableString[1..];
    forall m | p < m < |text| ensures ValidChar(trigger, text[m]) {
      assert text[m] == r.matchingString[m - p - 1];
    }
  }

  /** Valid characters exclude the trigger, so at most one position can start the run. */
  lemma TriggerAtUnique(text: string, trigger: char, maxLength: nat, p: nat, q: nat)
    requires TriggerAt(text, trigger, maxLength, p) && TriggerAt(text, trigger, maxLength, q)
    ensures p == q
  {
  }

  /** There is at most one acceptable answer. */
  lemma IsTriggerMatchUnique(text: string, trigger: char, limits: Limits, r1: MenuTextMatch, r2: MenuTextMatch)
    requires IsTriggerMatch(text, trigger, limits, r1) && IsTriggerMatch(text, trigger, limits, r2)
    ensures r1 == r2
  {
    IsTriggerMatchTriggerAt(text, trigger, limits, r1);
    IsTriggerMatchTriggerAt(text, trigger, limits, r2);
    TriggerAtUnique(text, trigger, limits.maxLength, r1.leadOffset, r2.leadOffset);
  }

  /** No answer has its trigger at `p` when the run after `p` is too short. */
  lemma NoMatchAt(text: string, trigger: char, limits: Limits, p: nat)
    requires p < |text| && text[p] == trigger && |text| - p - 1 < limits.minLength
    requires forall m :: p < m < |text| ==> ValidChar(trigger, text[m])
    ensures forall r :: !IsTriggerMatch(text, trigger, limits, r)
  {
    forall r | IsTriggerMatch(text, trigger, limits, r) ensures false {
      IsTriggerMatchTriggerAt(text, trigger, limits, r);
    }
  }

  /**
   * No answer exists when the last `k` characters are valid and the one
   * before them, if any, is not the trigger and cannot extend the run
   * (it is not valid, or the run already has `maxLength` characters).
   */
  lemma NoMatchBeyond(text: string, trigger: char, limits: Limits, k: nat)
    requires k <= |text|
    requires forall m :: |text| - k <= m < |text| ==> ValidChar(trigger, text[m])
    requires k < |text| ==> text[|text| - 1 - k] != trigger
    requires k < |text| ==> !ValidChar(trigger, text[|text| - 1 - k]) || k >= limits.maxLength
    ensures forall r :: !IsTriggerMatch(text, trigger, limits, r)
  {
    forall r | IsTriggerMatch(text, trigger, limits, r) ensures false {
      IsTriggerMatchTriggerAt(text, trigger, limits, r);
    }
  }

  // ---------------------------------------------------------------------------
  // The matcher agrees with the description
  // ---------------------------------------------------------------------------

  /** With no trigger after position `|prefix|`, the only acceptable answer starts there. */
  lemma LastTriggerOnlyAnswer(trigger: char, limits: Limits, prefix: string, tail: string, r: MenuTextMatch)
    requires trigger !in tail
    requires IsTriggerMatch(prefix + [trigger] + tail, trigger, limits, r)
    ensures r == MenuTextMatch(|prefix|, tail, [trigger] + tail)
  {
    var text := prefix + [trigger] + tail;
    assert text[|prefix|..] == [trigger] + tail;
    forall k | |prefix| < k < |text| ensures text[k] != trigger {
      assert text[k] == tail[k - |prefix| - 1];
    }
    assert r.matchingString == r.replaceableString[1..] == text[r.leadOffset + 1..];
    forall k | r.leadOffset < k < |text| ensures ValidChar(trigger, text[k]) {
      assert text[k] == r.matchingString[k - r.leadOffset - 1];
    }
    assert text[|prefix|] == trigger && text[r.leadOffset] == trigger;
    assert r.leadOffset == |prefix|;
  }

  /**
   * A match of the pattern whose group 3 is long enough reports an acceptable
   * answer: `leadOffset` skips group 1, group 3 is the query, group 2 the span.
   */
  lemma RegexMatchReport(text: string, trigger: char, limits: Limits, m: RegexMatch)
    requires IsRegexMatch(text, trigger, limits.maxLength, m)
    requires |m.group3| >= limits.minLength
    ensures IsTriggerMatch(text, trigger, limits, MenuTextMatch(m.index + |m.group1|, m.group3, m.group2))
  {
    var p := m.index + |m.group1|;
    assert text[p..] == [trigger] + text[p + 1..];
    forall i | 0 <= i < |m.group3| ensures ValidChar(trigger, m.group3[i]) {
      assert m.group3[i] == text[p + 1 + i];
    }
  }

  /** Whenever an acceptable answer exists, the trigger function returns it. */
  lemma TriggerMatchComplete(trigger: char, options: TriggerOptions, text: string, r: MenuTextMatch)
    requires SafeTrigger(trigger)
    requires IsTriggerMatch(text, trigger, ResolveOptions(options), r)
    ensures TriggerMatch(trigger, options, text) == Some(r)
  {
    var limits := ResolveOptions(options);
    IsTriggerMatchTriggerAt(text, trigger, limits, r);
    var e := Exec(text, trigger, limits.maxLength);
    assert e.Some?;
    var m := e.value;
    TriggerAtUnique(text, trigger, limits.maxLength, m.index + |m.group1|, r.leadOffset);
  }

  /** The trigger function answers `Some(r)` exactly for the acceptable answer `r`. */
  lemma TriggerMatchIff(trigger: char, options: TriggerOptions, text: string, r: MenuTextMatch)
    requires SafeTrigger(trigger)
    ensures TriggerMatch(trigger, options, text) == Some(r) <==> IsTriggerMatch(text, trigger, ResolveOptions(options), r)
  {
    if IsTriggerMatch(text, trigger, ResolveOptions(options), r) {
      TriggerMatchComplete(trigger, options, text, r);
    }
  }

  /** `null` exactly when no acceptable answer exists. */
  lemma TriggerMatchNoneIff(trigger: char, options: TriggerOptions, text: string)
    requires SafeTrigger(trigger)
    ensures TriggerMatch(trigger, options, text).None? <==>
              forall r :: !IsTriggerMatch(text, trigger, ResolveOptions(options), r)
  {
    forall r | IsTriggerMatch(text, trigger, ResolveOptions(options), r)
      ensures TriggerMatch(trigger, options, text).Some?
    {
      TriggerMatchComplete(trigger, options, text, r);
    }
  }

  /** The regex-built matcher and the backward scan give the same answer on every text. */
  lemma ScanBackwardAgrees(trigger: char, options: TriggerOptions, text: string)
    requires SafeTrigger(trigger)
    ensures ScanBackward(text, trigger, ResolveOptions(options)) == TriggerMatch(trigger, options, text)
  {
    var s := ScanBackward(text, trigger, ResolveOptions(options));
    if s.Some? {
      TriggerMatchComplete(trigger, options, text, s.value);
    } else {
    }
  }

  // ---------------------------------------------------------------------------
  // Consequences of the pattern
  // ---------------------------------------------------------------------------

  /** A text without the trigger never matches. */
  lemma NoTriggerNoMatch(trigger: char, options: TriggerOptions, text: string)
    requires SafeTrigger(trigger)
    requires trigger !in text
    ensures TriggerMatch(trigger, options, text) == None
  {
  }

  /**
   * A result points at the last trigger of the text, its query holds no
   * whitespace, no punctuation and no trigger, and its length is within the limits.
   */
  lemma ResultShape(trigger: char, options: TriggerOptions, text: string)
    requires SafeTrigger(trigger)
    requires TriggerMatch(trigger, options, text).Some?
    ensures var r := TriggerMatch(trigger, options, text).value;
      && r.leadOffset < |text| && text[r.leadOffset] == trigger
      && (forall q :: r.leadOffset < q < |text| ==> text[q] != trigger)
      && r.replaceableString == [trigger] + r.matchingString == text[r.leadOffset..]
      && (forall c :: c in r.matchingString ==> c != trigger && !IsPunctuation(c) && !IsWhitespace(c))
      && ResolveOptions(options).minLength <= |r.matchingString| <= ResolveOptions(options).maxLength
  {
    var r := TriggerMatch(trigger, options, text).value;
    IsTriggerMatchTriggerAt(text, trigger, ResolveOptions(options), r);
    forall c | c in r.matchingString
      ensures c != trigger && !IsPunctuation(c) && !IsWhitespace(c)
    {
      var i :| 0 <= i < |r.matchingString| && r.matchingString[i] == c;
      assert ValidChar(trigger, r.matchingString[i]);
    }
  }

  /**
   * Only what follows the last trigger decides: the text matches exactly when
   * that tail is valid and its length is within the limits, whatever precedes
   * the trigger (no whitespace or start of text is needed). An over-long or
   * partly invalid tail is refused, never cut short.
   */
  lemma LastTriggerDecides(trigger: char, options: TriggerOptions, prefix: string, tail: string)
    requires SafeTrigger(trigger)
    requires trigger !in tail
    ensures var limits := ResolveOptions(options);
      TriggerMatch(trigger, options, prefix + [trigger] + tail) ==
        if AllValid(trigger, tail) && limits.minLength <= |tail| <= limits.maxLength
        then Some(MenuTextMatch(|prefix|, tail, [trigger] + tail))
        else None
  {
    var limits := ResolveOptions(options);
    var text := prefix + [trigger] + tail;
    var expected := MenuTextMatch(|prefix|, tail, [trigger] + tail);
    assert text[|prefix|..] == [trigger] + tail;
    if AllValid(trigger, tail) && limits.minLength <= |tail| <= limits.maxLength {
      TriggerMatchComplete(trigger, options, text, expected);
    } else {
      if TriggerMatch(trigger, options, text).Some? {
        var r := TriggerMatch(trigger, options, text).value;
        LastTriggerOnlyAnswer(trigger, limits, prefix, tail, r);
        assert false;
      }
    }
  }

  /**
   * A `(` just before the trigger is consumed by group 1, so the regex match
   * starts at the parenthesis, but `leadOffset` skips it and the span starts
   * at the trigger.
   */
  lemma ParenthesisSkipped(trigger: char, options: TriggerOptions, prefix: string, run: string)
    requires SafeTrigger(trigger)
    requires AllValid(trigger, run)
    requires ResolveOptions(options).minLength <= |run| <= ResolveOptions(options).maxLength
    ensures var text := prefix + "(" + [trigger] + run;
      && Exec(text, trigger, ResolveOptions(options).maxLength) == Some(RegexMatch(|prefix|, "(", [trigger] + run, run))
      && TriggerMatch(trigger, options, text) == Some(MenuTextMatch(|prefix| + 1, run, [trigger] + run))
  {
    ParenthesisMatch(trigger, ResolveOptions(options).maxLength, prefix, run);
    assert prefix + "(" + [trigger] + run == (prefix + "(") + [trigger] + run;
    LastTriggerDecides(trigger, options, prefix + "(", run);
  }

  /** The regex half of `ParenthesisSkipped`: `exec` starts at the parenthesis. */
  lemma ParenthesisMatch(trigger: char, maxLength: nat, prefix: string, run: string)
    requires SafeTrigger(trigger)
    requires AllValid(trigger, run)
    requires |run| <= maxLength
    ensures Exec(prefix + "(" + [trigger] + run, trigger, maxLength) == Some(RegexMatch(|prefix|, "(", [trigger] + run, run))
  {
    var text := prefix + "(" + [trigger] + run;
    var p := |prefix| + 1;
    assert text[p..] == [trigger] + run;
    assert text[p + 1..] == run;
    forall m | p < m < |text| ensures ValidChar(trigger, text[m]) {
      assert text[m] == run[m - p - 1];
    }
    assert TriggerAt(text, trigger, maxLength, p);
    assert ExecAt(text, trigger, maxLength, |prefix|).Some?;
    var m := Exec(text, trigger, maxLength).value;
    TriggerAtUnique(text, trigger, maxLength, m.index + |m.group1|, p);
    assert m.index == |prefix|;
    assert m.group1 == text[|prefix|..|prefix| + 1];
  }

  /** The defaults are 1 and 75. */
  lemma DefaultLimits()
    ensures ResolveOptions(TriggerOptions(None, None)) == Limits(1, 75)
  {
  }

  /** With the defaults a bare trigger at the cursor does not match. */
  lemma BareTriggerRefusedByDefault(trigger: char, prefix: string)
    requires SafeTrigger(trigger)
    ensures TriggerMatch(trigger, TriggerOptions(None, None), prefix + [trigger]) == None
  {
    LastTriggerDecides(trigger, TriggerOptions(None, None), prefix, []);
    assert prefix + [trigger] + [] == prefix + [trigger];
  }

  // ---------------------------------------------------------------------------
  // Worked examples
  // ---------------------------------------------------------------------------

  /** A run of lower-case ASCII letters is valid after any trigger that is not one. */
  lemma LowerLettersValid(trigger: char, run: string)
    requires !('a' <= trigger <= 'z')
    requires forall i :: 0 <= i < |run| ==> 'a' <= run[i] <= 'z'
    ensures AllValid(trigger, run)
  {
    forall i | 0 <= i < |run| ensures ValidChar(trigger, run[i]) {
      assert !IsPunctuation(run[i]);
    }
  }

  /** `hello {abc` with the defaults matches at the brace. */
  lemma ExampleAfterSpace(text: string)
    requires text == "hello {abc"
    ensures TriggerMatch('{', TriggerOptions(None, None), text) == Some(MenuTextMatch(6, "abc", "{abc"))
  {
    var run := "abc";
    LowerLettersValid('{', run);
    assert text == "hello " + ['{'] + run;
    LastTriggerDecides('{', TriggerOptions(None, None), "hello ", run);
  }

  /** `abc{x`: a trigger in the middle of a word matches. */
  lemma ExampleMidWord(text: string)
    requires text == "abc{x"
    ensures TriggerMatch('{', TriggerOptions(None, None), text) == Some(MenuTextMatch(3, "x", "{x"))
  {
    var run := "x";
    LowerLettersValid('{', run);
    assert text == "abc" + ['{'] + run;
    LastTriggerDecides('{', TriggerOptions(None, None), "abc", run);
  }

  /** `({abc`: the parenthesis is matched but not reported. */
  lemma ExampleParenthesis(text: string)
    requires text == "({abc"
    ensures TriggerMatch('{', TriggerOptions(None, None), text) == Some(MenuTextMatch(1, "abc", "{abc"))
  {
    var run := "abc";
    LowerLettersValid('{', run);
    assert text == "(" + ['{'] + run;
    LastTriggerDecides('{', TriggerOptions(None, None), "(", run);
  }

  /** `{abcdef` with `maxLength = 3` does not match at all: the run is not truncated to `abc`. */
  lemma ExampleTooLong(text: string)
    requires text == "{abcdef"
    ensures TriggerMatch('{', TriggerOptions(None, Some(3)), text) == None
  {
    var run := "abcdef";
    assert text == "" + ['{'] + run;
    LastTriggerDecides('{', TriggerOptions(None, Some(3)), "", run);
  }

  /** `{abc.def` does not match: the `.` breaks the run and the pattern is anchored at the end. */
  lemma ExamplePunctuationInTail(text: string)
    requires text == "{abc.def"
    ensures TriggerMatch('{', TriggerOptions(None, None), text) == None
  {
    var run := "abc.def";
    assert !ValidChar('{', run[3]);
    assert text == "" + ['{'] + run;
    LastTriggerDecides('{', TriggerOptions(None, None), "", run);
  }

  /** With `minLength = 2`, `{a` gives no result and `{ab` does. */
  lemma ExampleMinLength(short: string, long: string)
    requires short == "{a" && long == "{ab"
    ensures TriggerMatch('{', TriggerOptions(Some(2), None), short) == None
    ensures TriggerMatch('{', TriggerOptions(Some(2), None), long) == Some(MenuTextMatch(0, "ab", "{ab"))
  {
    var run := "ab";
    LowerLettersValid('{', run);
    assert short == "" + ['{'] + run[..1];
    assert long == "" + ['{'] + run;
    LastTriggerDecides('{', TriggerOptions(Some(2), None), "", run[..1]);
    LastTriggerDecides('{', TriggerOptions(Some(2), None), "", run);
  }
}
