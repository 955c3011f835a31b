/**
 Numeric field extraction of the document processor (workers/processor.py).

 For each of the labels total, sum, amount, count the processor searches the
 content with the regular expression `word[:\s]+(\d+\.?\d*)` under
 re.IGNORECASE and records the value of the first (leftmost) match. This
 module writes that search out as an explicit leftmost scan with greedy digit
 runs, and relates it to a declarative statement of when the pattern matches.
 */
module FieldExtraction {
  import opened Wrappers

  /** The labels in the order the processor tries them (and inserts them). */
  const Labels: seq<string> := ["total", "sum", "amount", "count"]

  // ---------------------------------------------------------------------
  // Character classes
  // ---------------------------------------------------------------------

  /** `\d`, restricted to the ASCII digits. */
  predicate IsDigit(c: char) {
    '0' <= c <= '9'
  }

  /** `\s` on a Python str pattern: the characters `str.isspace` accepts. */
  predicate IsSpace(c: char) {
    || ('\t' <= c <= '\r')
    || ('\U{1C}' <= c <= '\U{1F}')
    || c == ' '
    || c == '\U{85}'
    || c == '\U{A0}'
    || c == '\U{1680}'
    || ('\U{2000}' <= c <= '\U{200A}')
    || c == '\U{2028}'
    || c == '\U{2029}'
    || c == '\U{202F}'
    || c == '\U{205F}'
    || c == '\U{3000}'
  }

  /** The character class `[:\s]`. */
  predicate IsSeparator(c: char) {
    c == ':' || IsSpace(c)
  }

  /** ASCII upper-casing; every other character is left alone. */
  function Upper(c: char): char {
    if 'a' <= c <= 'z' then (c as int - 32) as char else c
  }

  /** Whether content character `c` matches the lower-case pattern letter `l`
      under re.IGNORECASE: the letter itself, its upper case, and for `s` also
      U+017F LATIN SMALL LETTER LONG S, which Python folds to `s`. */
  predicate FoldsTo(c: char, l: char) {
    c == l || c == Upper(l) || (l == 's' && c == '\U{17F}')
  }

  // ---------------------------------------------------------------------
  // Pieces of a match
  // ---------------------------------------------------------------------

  /** The word occurs at position `i`, ignoring case. */
  predicate LabelAt(s: string, i: nat, word: string) {
    && i + |word| <= |s|
    && forall k :: 0 <= k < |word| ==> FoldsTo(s[i + k], word[k])
  }

  /** Every character in `s[a..b]` belongs to `[:\s]`. */
  predicate SeparatorsBetween(s: string, a: nat, b: nat) {
    && a <= b <= |s|
    && forall k :: a <= k < b ==> IsSeparator(s[k])
  }

  predicate AllDigits(t: string) {
    forall k :: 0 <= k < |t| ==> IsDigit(t[k])
  }

  /** `t` is the longest run of digits starting at position `a` of `s`
      (possibly empty, as `\d*` allows). */
  predicate MaxDigitRunAt(s: string, a: nat, t: string) {
    && a + |t| <= |s|
    && s[a..a + |t|] == t
    && AllDigits(t)
    && (a + |t| == |s| || !IsDigit(s[a + |t|]))
  }

  /** Length of the run of `[:\s]` characters starting at position `j`; the
      run stops at the end of `s` or at a character outside the class. */
  function SeparatorRun(s: string, j: nat): (n: nat)
    requires j <= |s|
    ensures j + n <= |s|
    ensures j + n == |s| || !IsSeparator(s[j + n])
    decreases |s| - j
  {
    if j == |s| || !IsSeparator(s[j]) then 0 else 1 + SeparatorRun(s, j + 1)
  }

  /** Every character the separator run covers is in the class. */
  lemma {:induction false} SeparatorRunSpans(s: string, j: nat)
    requires j <= |s|
    ensures forall k :: j <= k < j + SeparatorRun(s, j) ==> IsSeparator(s[k])
    decreases |s| - j
  {
    if j < |s| && IsSeparator(s[j]) {
      SeparatorRunSpans(s, j + 1);
    }
  }

  /** The run of digits starting at position `j` (`\d*`, taken greedily). */
  function DigitsAt(s: string, j: nat): (t: string)
    requires j <= |s|
    ensures j + |t| <= |s|
    decreases |s| - j
  {
    if j == |s| || !IsDigit(s[j]) then [] else [s[j]] + DigitsAt(s, j + 1)
  }

  /** The digits taken are the longest run of digits at `j`. */
  lemma {:induction false} DigitsAtMax(s: string, j: nat)
    requires j <= |s|
    ensures MaxDigitRunAt(s, j, DigitsAt(s, j))
    decreases |s| - j
  {
    if j < |s| && IsDigit(s[j]) {
      DigitsAtMax(s, j + 1);
      var t := DigitsAt(s, j + 1);
      assert s[j..j + 1 + |t|] == [s[j]] + s[j + 1..j + 1 + |t|];
    }
  }

  /** The captured group `\d+\.?\d*`: the integer digits and, when the dot
      was present, the digits after it (possibly none, as in "12."). */
  datatype Number = Number(whole: string, fraction: Option<string>)

  /** One match: where it starts, where its group starts, and the group. */
  datatype Hit = Hit(start: nat, group: nat, number: Number)

  /** The text of the captured group, as `re.findall` returns it. */
  function Text(n: Number): string {
    n.whole + match n.fraction
              case Some(f) => "." + f
              case None => ""
  }

  /** The group Python's greedy matcher captures at position `d`: a non-empty
      maximal digit run, then the dot if one follows, then a maximal digit run. */
  ghost predicate GreedyNumberAt(s: string, d: nat, n: Number) {
    && |n.whole| > 0
    && MaxDigitRunAt(s, d, n.whole)
    && var e := d + |n.whole|;
       && (n.fraction.Some? <==> e < |s| && s[e] == '.')
       && (n.fraction.Some? ==> MaxDigitRunAt(s, e + 1, n.fraction.value))
  }

  /** Declarative statement of "the pattern for `word` matches at `i`":
      the word, one or more separators, then a digit. */
  ghost predicate PatternAt(s: string, i: nat, word: string) {
    && LabelAt(s, i, word)
    && exists d :: i + |word| < d < |s| && SeparatorsBetween(s, i + |word|, d) && IsDigit(s[d])
  }

  // ---------------------------------------------------------------------
  // The matcher
  // ---------------------------------------------------------------------

  /** The greedy group `\d+\.?\d*` at position `d`, when a digit is there. */
  function GroupAt(s: string, d: nat): Option<Number>
    requires d <= |s|
  {
    var whole := DigitsAt(s, d);
    var e := d + |whole|;
    if whole == [] then None
    else if e < |s| && s[e] == '.' then Some(Number(whole, Some(DigitsAt(s, e + 1))))
    else Some(Number(whole, None))
  }

  /** The group is found exactly where a digit is, and it is the greedy one. */
  lemma GroupAtGreedy(s: string, d: nat)
    requires d <= |s|
    ensures GroupAt(s, d).Some? <==> d < |s| && IsDigit(s[d])
    ensures GroupAt(s, d).Some? ==> GreedyNumberAt(s, d, GroupAt(s, d).value)
  {
    DigitsAtMax(s, d);
    var e := d + |DigitsAt(s, d)|;
    if e < |s| {
      DigitsAtMax(s, e + 1);
    }
  }

  /** The greedy group is the text found at its position. */
  lemma GroupIsText(s: string, d: nat, n: Number)
    requires GreedyNumberAt(s, d, n)
    ensures d + |Text(n)| <= |s| && s[d..d + |Text(n)|] == Text(n)
  {
    var e := d + |n.whole|;
    if n.fraction.Some? {
      var f := e + 1 + |n.fraction.value|;
      assert s[d..f] == s[d..e] + [s[e]] + s[e + 1..f];
    }
  }

  /** Attempt the pattern for `word` at position `i`, as the regular
      expression engine does: the word, the separator run, then the greedy group. */
  function MatchAt(s: string, i: nat, word: string): Option<Hit>
  {
    if !LabelAt(s, i, word) then None
    else
      var j := i + |word|;
      var d := j + SeparatorRun(s, j);
      if d == j then None
      else
        match GroupAt(s, d)
        case Some(n) => Some(Hit(i, d, n))
        case None => None
  }

  /** What a match at `i` consists of: the word, a non-empty run of
      separators, and the group Python's greedy matcher captures. */
  lemma MatchAtShape(s: string, i: nat, word: string)
    ensures MatchAt(s, i, word).Some? ==>
      var h := MatchAt(s, i, word).value;
      && h.start == i
      && LabelAt(s, i, word)
      && i + |word| < h.group
      && SeparatorsBetween(s, i + |word|, h.group)
      && GreedyNumberAt(s, h.group, h.number)
  {
    if LabelAt(s, i, word) {
      var j := i + |word|;
      SeparatorRunSpans(s, j);
      GroupAtGreedy(s, j + SeparatorRun(s, j));
    }
  }

  /** The explicit matcher succeeds exactly where the pattern matches. */
  lemma MatchAtIffPattern(s: string, i: nat, word: string)
    ensures MatchAt(s, i, word).Some? <==> PatternAt(s, i, word)
  {
    var j := i + |word|;
    MatchAtShape(s, i, word);
    if j <= |s| {
      SeparatorRunSpans(s, j);
    }
    if MatchAt(s, i, word).Some? {
      var h := MatchAt(s, i, word).value;
      assert s[h.group] == h.number.whole[0];
    } else if LabelAt(s, i, word) {
      if d :| j < d < |s| && SeparatorsBetween(s, j, d) && IsDigit(s[d]) {
        assert false;
      }
    }
  }

  /** The first index at or after `from` whose attempt succeeded. */
  function FirstSuccess<T>(a: seq<Option<T>>, from: nat): (r: Option<nat>)
    ensures r.Some? ==> from <= r.value < |a| && a[r.value].Some?
    ensures forall i :: from <= i < |a| && (r.None? || i < r.value) ==> a[i].None?
    decreases |a| - from
  {
    if from >= |a| then None
    else if a[from].Some? then Some(from)
    else FirstSuccess(a, from + 1)
  }

  /** A success with only failures before it is the one the search finds. */
  lemma FirstSuccessAt<T>(a: seq<Option<T>>, from: nat, k: nat)
    requires from <= k < |a| && a[k].Some?
    requires forall i :: from <= i < k ==> a[i].None?
    ensures FirstSuccess(a, from) == Some(k)
  {
  }

  /** The outcome of attempting the pattern at every position of `s`. */
  function Attempts(s: string, word: string): (a: seq<Option<Hit>>)
    ensures |a| == |s|
    ensures forall i :: 0 <= i < |s| ==> a[i] == MatchAt(s, i, word)
  {
    seq(|s|, i requires 0 <= i < |s| => MatchAt(s, i, word))
  }

  /** The leftmost match in `s`: `re.findall(...)[0]`, since findall reports
      matches left to right. */
  function FirstMatch(s: string, word: string): Option<Hit> {
    match FirstSuccess(Attempts(s, word), 0)
    case Some(i) => MatchAt(s, i, word)
    case None => None
  }

  /** The search reports a match, found at its own start, with no match
      before it; or reports none when no position matches. */
  lemma FirstMatchSpec(s: string, word: string)
    ensures FirstMatch(s, word).Some? ==>
      var h := FirstMatch(s, word).value;
      h.start < |s| && MatchAt(s, h.start, word) == Some(h)
    ensures forall i :: 0 <= i < |s| && (FirstMatch(s, word).None? || i < FirstMatch(s, word).value.start) ==>
      MatchAt(s, i, word).None?
  {
    var a := Attempts(s, word);
    var r := FirstSuccess(a, 0);
    if r.Some? {
      MatchAtShape(s, r.value, word);
    }
  }

  /** A position whose character cannot start the word holds no match. */
  lemma NoMatchWithoutFirstLetter(s: string, i: nat, word: string)
    requires 0 < |word| && i < |s| && !FoldsTo(s[i], word[0])
    ensures MatchAt(s, i, word).None?
  {
    assert !FoldsTo(s[i + 0], word[0]);
  }

  /** A search finds a match iff the pattern matches somewhere, and what it
      finds is the leftmost such position. */
  lemma FirstMatchIsLeftmost(s: string, word: string)
    ensures FirstMatch(s, word).Some? <==> exists i :: PatternAt(s, i, word)
    ensures FirstMatch(s, word).Some? ==>
      && PatternAt(s, FirstMatch(s, word).value.start, word)
      && forall i :: 0 <= i < FirstMatch(s, word).value.start ==> !PatternAt(s, i, word)
  {
    var r := FirstMatch(s, word);
    FirstMatchSpec(s, word);
    forall i | PatternAt(s, i, word)
      ensures r.Some? && r.value.start <= i
    {
      MatchAtIffPattern(s, i, word);
    }
    if r.Some? {
      MatchAtIffPattern(s, r.value.start, word);
      forall i | 0 <= i < r.value.start
        ensures !PatternAt(s, i, word)
      {
        MatchAtIffPattern(s, i, word);
      }
    }
  }

  // ---------------------------------------------------------------------
  // Values
  // ---------------------------------------------------------------------

  function DigitValue(c: char): nat {
    if IsDigit(c) then c as int - '0' as int else 0
  }

  /** The decimal value of a digit string. */
  function DigitsValue(t: string): nat {
    if t == [] then 0 else DigitsValue(t[..|t| - 1]) * 10 + DigitValue(t[|t| - 1])
  }

  function Pow10(n: nat): (p: nat)
    ensures p >= 1
  {
    if n == 0 then 1 else 10 * Pow10(n - 1)
  }

  /** `float(group)`, as an exact real number. The group has no sign, so the
      value is never negative. */
  function Value(n: Number): (v: real)
    ensures v >= 0.0
  {
    DigitsValue(n.whole) as real
      + match n.fraction
        case Some(f) => DigitsValue(f) as real / Pow10(|f|) as real
        case None => 0.0
  }

  /** A digit string of length `n` denotes less than 10^n. */
  lemma {:induction false} DigitsValueBelowPow10(t: string)
    ensures DigitsValue(t) < Pow10(|t|)
  {
    if t != [] {
      DigitsValueBelowPow10(t[..|t| - 1]);
    }
  }

  lemma RatioBelowOne(a: real, b: real)
    requires 0.0 <= a < b
    ensures 0.0 <= a / b < 1.0
  {
  }

  /** The digits before the dot are the integer part of the value: the
      fraction contributes less than one. */
  lemma ValueIntegerPart(n: Number)
    ensures DigitsValue(n.whole) as real <= Value(n) < DigitsValue(n.whole) as real + 1.0
  {
    if n.fraction.Some? {
      var f := n.fraction.value;
      DigitsValueBelowPow10(f);
      RatioBelowOne(DigitsValue(f) as real, Pow10(|f|) as real);
    }
  }

  // ---------------------------------------------------------------------
  // Field sets
  // ---------------------------------------------------------------------

  /** One entry of the extracted dictionary. */
  datatype Field = Field(name: string, value: real)

  /** The dictionary lookup on an insertion-ordered field list (first entry wins). */
  function Lookup(fields: seq<Field>, name: string): Option<real> {
    if fields == [] then None
    else if fields[0].name == name then Some(fields[0].value)
    else Lookup(fields[1..], name)
  }

  /** A lookup fails exactly when no entry carries the name, and otherwise
      returns the value of an entry that does. */
  lemma {:induction false} LookupFinds(fields: seq<Field>, name: string)
    ensures Lookup(fields, name).None? <==> forall a :: 0 <= a < |fields| ==> fields[a].name != name
    ensures Lookup(fields, name).Some? ==> Field(name, Lookup(fields, name).value) in fields
  {
    if fields != [] && fields[0].name != name {
      LookupFinds(fields[1..], name);
      forall a | 0 < a < |fields| ensures fields[a] == fields[1..][a - 1] { }
    }
  }

  /** Position of a field name in the label order (4 for any other name). */
  function Rank(name: string): nat {
    if name == "total" then 0
    else if name == "sum" then 1
    else if name == "amount" then 2
    else if name == "count" then 3
    else 4
  }

  lemma RankOfLabel(j: nat)
    requires j < |Labels|
    ensures Rank(Labels[j]) == j
  {
  }

  /** The value recorded for `word`: that of its leftmost match, if any. */
  function Found(content: string, word: string): Option<real> {
    match FirstMatch(content, word)
    case Some(hit) => Some(Value(hit.number))
    case None => None
  }

  lemma LookupCons(f: Field, rest: seq<Field>, name: string)
    ensures Lookup([f] + rest, name) == if f.name == name then Some(f.value) else Lookup(rest, name)
  {
    assert ([f] + rest)[1..] == rest;
  }

  /** What a search recorded for each label, in label order. */
  function Finds(content: string): (f: seq<Option<real>>)
    ensures |f| == |Labels|
    ensures forall j :: 0 <= j < |Labels| ==> f[j] == Found(content, Labels[j])
  {
    [Found(content, Labels[0]), Found(content, Labels[1]), Found(content, Labels[2]), Found(content, Labels[3])]
  }

  predicate NonNegative(found: seq<Option<real>>) {
    forall j :: 0 <= j < |found| && found[j].Some? ==> found[j].value >= 0.0
  }

  /** What building the dictionary over the labels from index `k` on promises. */
  ghost predicate AssembledFrom(found: seq<Option<real>>, k: nat, r: seq<Field>)
    requires |found| == |Labels| && k <= |Labels|
  {
    && (forall a :: 0 <= a < |r| ==> k <= Rank(r[a].name) < |Labels| && r[a].value >= 0.0)
    && (forall a, b :: 0 <= a < b < |r| ==> Rank(r[a].name) < Rank(r[b].name))
    && (forall j :: k <= j < |Labels| ==> Lookup(r, Labels[j]) == found[j])
  }

  /** The dictionary built by the extraction loop from the labels at index `k`
      on: each label with a recorded value is inserted, in label order. */
  function Assemble(found: seq<Option<real>>, k: nat): seq<Field>
    requires |found| == |Labels| && k <= |Labels|
    decreases |Labels| - k
  {
    if k == |Labels| then []
    else
      var rest := Assemble(found, k + 1);
      if found[k].Some? then [Field(Labels[k], found[k].value)] + rest else rest
  }

  /** The assembled list holds, in label order, exactly the recorded values
      from label `k` on. */
  lemma {:induction false} AssembleSpec(found: seq<Option<real>>, k: nat)
    requires |found| == |Labels| && NonNegative(found) && k <= |Labels|
    ensures AssembledFrom(found, k, Assemble(found, k))
    decreases |Labels| - k
  {
    if k < |Labels| {
      AssembleSpec(found, k + 1);
      AssembleStep(found, k, Assemble(found, k + 1), Assemble(found, k));
    }
  }

  lemma AssembleStep(found: seq<Option<real>>, k: nat, rest: seq<Field>, r: seq<Field>)
    requires |found| == |Labels| && NonNegative(found) && k < |Labels|
    requires AssembledFrom(found, k + 1, rest)
    requires r == match found[k]
                  case Some(v) => [Field(Labels[k], v)] + rest
                  case None => rest
    ensures AssembledFrom(found, k, r)
  {
    AssembleStepRanks(found, k, rest, r);
    AssembleStepOrder(found, k, rest, r);
    AssembleStepLookup(found, k, rest, r);
  }

  /** Every rank in the extended list lies in `[k, |Labels|)` with a non-negative value. */
  lemma AssembleStepRanks(found: seq<Option<real>>, k: nat, rest: seq<Field>, r: seq<Field>)
    requires |found| == |Labels| && NonNegative(found) && k < |Labels|
    requires forall a :: 0 <= a < |rest| ==> k + 1 <= Rank(rest[a].name) < |Labels| && rest[a].value >= 0.0
    requires r == match found[k]
                  case Some(v) => [Field(Labels[k], v)] + rest
                  case None => rest
    ensures forall a :: 0 <= a < |r| ==> k <= Rank(r[a].name) < |Labels| && r[a].value >= 0.0
  {
    RankOfLabel(k);
    forall a | 0 <= a < |r|
      ensures k <= Rank(r[a].name) < |Labels| && r[a].value >= 0.0
    {
      if found[k].Some? && a > 0 {
        assert r[a] == rest[a - 1];
      }
    }
  }

  /** Prepending the label of rank `k` keeps the ranks strictly increasing. */
  lemma AssembleStepOrder(found: seq<Option<real>>, k: nat, rest: seq<Field>, r: seq<Field>)
    requires |found| == |Labels| && k < |Labels|
    requires forall a :: 0 <= a < |rest| ==> k + 1 <= Rank(rest[a].name)
    requires forall a, b :: 0 <= a < b < |rest| ==> Rank(rest[a].name) < Rank(rest[b].name)
    requires r == match found[k]
                  case Some(v) => [Field(Labels[k], v)] + rest
                  case None => rest
    ensures forall a, b :: 0 <= a < b < |r| ==> Rank(r[a].name) < Rank(r[b].name)
  {
    RankOfLabel(k);
    forall a, b | 0 <= a < b < |r|
      ensures Rank(r[a].name) < Rank(r[b].name)
    {
      if found[k].Some? {
        assert r[b] == rest[b - 1];
        if a > 0 {
          assert r[a] == rest[a - 1];
        }
      }
    }
  }

  /** Lookups in the extended list give `found` from `k` on. */
  lemma AssembleStepLookup(found: seq<Option<real>>, k: nat, rest: seq<Field>, r: seq<Field>)
    requires |found| == |Labels| && k < |Labels|
    requires forall a :: 0 <= a < |rest| ==> k + 1 <= Rank(rest[a].name) < |Labels|
    requires forall j :: k + 1 <= j < |Labels| ==> Lookup(rest, Labels[j]) == found[j]
    requires r == match found[k]
                  case Some(v) => [Field(Labels[k], v)] + rest
                  case None => rest
    ensures forall j :: k <= j < |Labels| ==> Lookup(r, Labels[j]) == found[j]
  {
    RankOfLabel(k);
    LookupFinds(rest, Labels[k]);
    forall j | k <= j < |Labels|
      ensures Lookup(r, Labels[j]) == found[j]
    {
      if found[k].Some? {
        LookupCons(Field(Labels[k], found[k].value), rest, Labels[j]);
      }
    }
  }

  /** `_extract_numeric_fields`: the dictionary of the labels whose pattern
      matches, in label order, each with the value of its leftmost match. */
  function Extract(content: string): (r: seq<Field>)
    ensures |r| <= |Labels|
    ensures forall a :: 0 <= a < |r| ==> r[a].name in Labels && r[a].value >= 0.0
    ensures forall a, b :: 0 <= a < b < |r| ==> Rank(r[a].name) < Rank(r[b].name)
  {
    var found := Finds(content);
    var r := Assemble(found, 0);
    AssembleSpec(found, 0);
    RanksBoundLength(r);
    r
  }

  /** Each label maps to what its search recorded. */
  lemma ExtractLookup(content: string, j: nat)
    requires j < |Labels|
    ensures Lookup(Extract(content), Labels[j]) == Found(content, Labels[j])
  {
    AssembleSpec(Finds(content), 0);
    assert Finds(content)[j] == Found(content, Labels[j]);
  }

  lemma {:induction false} RanksBoundLength(r: seq<Field>)
    requires forall a :: 0 <= a < |r| ==> Rank(r[a].name) < |Labels|
    requires forall a, b :: 0 <= a < b < |r| ==> Rank(r[a].name) < Rank(r[b].name)
    ensures |r| <= |Labels|
    ensures forall a :: 0 <= a < |r| ==> r[a].name in Labels
  {
    forall a | 0 <= a < |r| ensures a <= Rank(r[a].name) && r[a].name in Labels {
      RankAtLeastIndex(r, a);
    }
    if |r| > |Labels| {
      RankAtLeastIndex(r, |Labels|);
    }
  }

  lemma {:induction false} RankAtLeastIndex(r: seq<Field>, a: nat)
    requires a < |r|
    requires forall x, y :: 0 <= x < y < |r| ==> Rank(r[x].name) < Rank(r[y].name)
    ensures a <= Rank(r[a].name)
  {
    if a > 0 {
      RankAtLeastIndex(r, a - 1);
    }
  }

  /** A label is a key of the result iff its pattern matches somewhere in the
      content; absence of a match just leaves the key out. */
  lemma ExtractKeyIffMatch(content: string, j: nat)
    requires j < |Labels|
    ensures Lookup(Extract(content), Labels[j]).Some? <==> exists i :: PatternAt(content, i, Labels[j])
  {
    ExtractLookup(content, j);
    FirstMatchIsLeftmost(content, Labels[j]);
  }

  /** The recorded value is that of the leftmost match, not of any later one. */
  lemma ExtractTakesLeftmost(content: string, j: nat, i: nat)
    requires j < |Labels|
    requires PatternAt(content, i, Labels[j])
    requires forall i' :: 0 <= i' < i ==> !PatternAt(content, i', Labels[j])
    ensures MatchAt(content, i, Labels[j]).Some?
    ensures Lookup(Extract(content), Labels[j]) == Some(Value(MatchAt(content, i, Labels[j]).value.number))
  {
    var word := Labels[j];
    ExtractLookup(content, j);
    FirstMatchIsLeftmost(content, word);
    MatchAtIffPattern(content, i, word);
    var h := FirstMatch(content, word);
    assert h.Some? && h.value.start == i;
  }

  // ---------------------------------------------------------------------
  // Case insensitivity
  // ---------------------------------------------------------------------

  /** The content with every ASCII letter upper-cased. */
  function UpperAll(s: string): (u: string)
    ensures |u| == |s|
  {
    if s == [] then [] else [Upper(s[0])] + UpperAll(s[1..])
  }

  lemma {:induction false} UpperAllAt(s: string, k: nat)
    requires k < |s|
    ensures UpperAll(s)[k] == Upper(s[k])
  {
    if k > 0 {
      UpperAllAt(s[1..], k - 1);
    }
  }

  lemma UpperKeepsClasses(c: char)
    ensures IsSeparator(Upper(c)) <==> IsSeparator(c)
    ensures IsDigit(Upper(c)) <==> IsDigit(c)
    ensures IsDigit(c) ==> Upper(c) == c
    ensures (Upper(c) == '.') <==> (c == '.')
    ensures forall l :: 'a' <= l <= 'z' ==> (FoldsTo(Upper(c), l) <==> FoldsTo(c, l))
  {
  }

  predicate IsLetter(c: char) {
    'a' <= c <= 'z' || 'A' <= c <= 'Z'
  }

  /** Two characters the separator and number patterns cannot tell apart:
      equal, or both ASCII letters. */
  predicate SameClass(a: char, b: char) {
    a == b || (IsLetter(a) && IsLetter(b))
  }

  /** From position `k` on, `u` is `s` with only letters changed, into other letters. */
  predicate CongruentFrom(s: string, u: string, k: nat)
    requires |s| == |u|
    decreases |s| - k
  {
    k >= |s| || (SameClass(s[k], u[k]) && CongruentFrom(s, u, k + 1))
  }

  predicate Congruent(s: string, u: string) {
    |s| == |u| && CongruentFrom(s, u, 0)
  }

  lemma {:induction false} CongruentFromAt(s: string, u: string, k: nat, m: nat)
    requires |s| == |u| && CongruentFrom(s, u, k) && k <= m < |s|
    ensures SameClass(s[m], u[m])
    decreases m - k
  {
    if k < m {
      CongruentFromAt(s, u, k + 1, m);
    }
  }

  lemma CongruentAt(s: string, u: string, m: nat)
    requires Congruent(s, u) && m < |s|
    ensures SameClass(s[m], u[m])
  {
    CongruentFromAt(s, u, 0, m);
  }

  lemma {:induction false} DigitsCongruent(s: string, u: string, j: nat)
    requires Congruent(s, u) && j <= |s|
    ensures DigitsAt(u, j) == DigitsAt(s, j)
    decreases |s| - j
  {
    if j < |s| {
      CongruentAt(s, u, j);
      DigitsCongruent(s, u, j + 1);
    }
  }

  lemma {:induction false} SeparatorRunCongruent(s: string, u: string, j: nat)
    requires Congruent(s, u) && j <= |s|
    ensures SeparatorRun(u, j) == SeparatorRun(s, j)
    decreases |s| - j
  {
    if j < |s| {
      CongruentAt(s, u, j);
      SeparatorRunCongruent(s, u, j + 1);
    }
  }

  lemma GroupAtCongruent(s: string, u: string, d: nat)
    requires Congruent(s, u) && d <= |s|
    ensures GroupAt(u, d) == GroupAt(s, d)
  {
    DigitsCongruent(s, u, d);
    var e := d + |DigitsAt(s, d)|;
    if e < |s| {
      CongruentAt(s, u, e);
      DigitsCongruent(s, u, e + 1);
    }
  }

  lemma {:induction false} UpperCongruentFrom(s: string, k: nat)
    ensures CongruentFrom(s, UpperAll(s), k)
    decreases |s| - k
  {
    if k < |s| {
      UpperAllAt(s, k);
      UpperCongruentFrom(s, k + 1);
    }
  }

  lemma UpperCongruent(s: string)
    ensures Congruent(s, UpperAll(s))
  {
    UpperCongruentFrom(s, 0);
  }

  lemma LabelAtUpper(s: string, i: nat, word: string)
    requires forall k :: 0 <= k < |word| ==> 'a' <= word[k] <= 'z'
    ensures LabelAt(UpperAll(s), i, word) <==> LabelAt(s, i, word)
  {
    forall k | 0 <= k < |word| && i + k < |s|
      ensures FoldsTo(UpperAll(s)[i + k], word[k]) <==> FoldsTo(s[i + k], word[k])
    {
      UpperAllAt(s, i + k);
      UpperKeepsClasses(s[i + k]);
    }
  }

  /** A match depends on the characters after the word only through their classes. */
  lemma MatchAtCongruent(s: string, u: string, i: nat, word: string)
    requires Congruent(s, u)
    requires LabelAt(u, i, word) == LabelAt(s, i, word)
    ensures MatchAt(u, i, word) == MatchAt(s, i, word)
  {
    if LabelAt(s, i, word) {
      var j := i + |word|;
      SeparatorRunCongruent(s, u, j);
      GroupAtCongruent(s, u, j + SeparatorRun(s, j));
    }
  }

  /** Upper-casing the ASCII letters of the content changes no match of a
      lower-case word. */
  lemma MatchAtUpper(s: string, i: nat, word: string)
    requires forall k :: 0 <= k < |word| ==> 'a' <= word[k] <= 'z'
    ensures MatchAt(UpperAll(s), i, word) == MatchAt(s, i, word)
  {
    LabelAtUpper(s, i, word);
    UpperCongruent(s);
    MatchAtCongruent(s, UpperAll(s), i, word);
  }

  lemma FirstMatchUpper(s: string, word: string)
    requires forall k :: 0 <= k < |word| ==> 'a' <= word[k] <= 'z'
    ensures FirstMatch(UpperAll(s), word) == FirstMatch(s, word)
  {
    forall i | 0 <= i < |s| ensures MatchAt(UpperAll(s), i, word) == MatchAt(s, i, word) {
      MatchAtUpper(s, i, word);
    }
    assert Attempts(UpperAll(s), word) == Attempts(s, word);
  }

  /** The labels are written in lower-case ASCII letters. */
  lemma LabelIsLower(j: nat)
    requires j < |Labels|
    ensures forall k :: 0 <= k < |Labels[j]| ==> 'a' <= Labels[j][k] <= 'z'
  {
  }

  /** What a label's search records is the same once the content's ASCII letters
      are upper-cased. */
  lemma FoundUpper(content: string, j: nat)
    requires j < |Labels|
    ensures Found(UpperAll(content), Labels[j]) == Found(content, Labels[j])
  {
    LabelIsLower(j);
    FirstMatchUpper(content, Labels[j]);
  }

  lemma FindsIgnoreCase(content: string)
    ensures Finds(UpperAll(content)) == Finds(content)
  {
    FoundUpper(content, 0);
    FoundUpper(content, 1);
    FoundUpper(content, 2);
    FoundUpper(content, 3);
  }

  /** re.IGNORECASE: upper-casing the ASCII letters of the content leaves the
      extracted fields unchanged. */
  lemma ExtractIgnoresCase(content: string)
    ensures Extract(UpperAll(content)) == Extract(content)
  {
    FindsIgnoreCase(content);
  }
}
