/**
 The processor's own sample document: extracting the fields of
 "Total: 1000, Sum: 500, Amount: 1500, Count: 3" yields all four labels
 with their integer values, in label order.

 The facts about the concrete text are established one character position
 at a time, through small recursive predicates and stepwise unfoldings of
 the matcher's run functions.
 */
module ExtractionExample {
  import opened Wrappers
  import opened FieldExtraction

  /** No character of `s[lo..hi]` matches the pattern letter `l`. */
  predicate Avoids(s: string, lo: nat, hi: nat, l: char)
    requires hi <= |s|
  {
    forall i :: lo <= i < hi ==> !FoldsTo(s[i], l)
  }

  /** Positions whose character cannot start the word hold no match. */
  lemma NoMatchBetween(s: string, lo: nat, hi: nat, word: string)
    requires hi <= |s| && |word| > 0 && Avoids(s, lo, hi, word[0])
    ensures forall i :: lo <= i < hi ==> MatchAt(s, i, word).None?
  {
    forall i | lo <= i < hi
      ensures MatchAt(s, i, word).None?
    {
      NoMatchWithoutFirstLetter(s, i, word);
    }
  }

  /** The characters of `s` from `i + k` on spell `word[k..]`, ignoring case. */
  predicate SpellsFrom(s: string, i: nat, word: string, k: nat)
    decreases |word| - k
  {
    k >= |word| || (i + k < |s| && FoldsTo(s[i + k], word[k]) && SpellsFrom(s, i, word, k + 1))
  }

  lemma {:induction false} SpellsFromLabel(s: string, i: nat, word: string, k: nat)
    requires SpellsFrom(s, i, word, k)
    ensures i + |word| <= |s| || k >= |word|
    ensures forall m :: k <= m < |word| ==> FoldsTo(s[i + m], word[m])
    decreases |word| - k
  {
    if k < |word| {
      SpellsFromLabel(s, i, word, k + 1);
    }
  }

  /** A run of digits at `d` not followed by a dot is an integer group. */
  lemma IntegerGroup(s: string, d: nat, digits: string)
    requires d <= |s| && |digits| > 0 && DigitsAt(s, d) == digits
    requires d + |digits| == |s| || s[d + |digits|] != '.'
    ensures GroupAt(s, d) == Some(Number(digits, None))
  {
  }

  /** A label spelled at `i`, a separator run up to `d`, and a run of digits
      at `d` not followed by a dot make a match with an integer group. */
  lemma IntegerMatch(s: string, i: nat, word: string, d: nat, digits: string)
    requires |word| > 0 && SpellsFrom(s, i, word, 0)
    requires i + |word| < d <= |s| && SeparatorRun(s, i + |word|) == d - (i + |word|)
    requires |digits| > 0 && DigitsAt(s, d) == digits
    requires d + |digits| == |s| || s[d + |digits|] != '.'
    ensures MatchAt(s, i, word) == Some(Hit(i, d, Number(digits, None)))
  {
    SpellsFromLabel(s, i, word, 0);
    assert LabelAt(s, i, word);
    IntegerGroup(s, d, digits);
    MatchOfParts(s, i, word, d, Number(digits, None));
  }

  /** A label, a non-empty separator run up to `d` and a group at `d` make a match. */
  lemma MatchOfParts(s: string, i: nat, word: string, d: nat, n: Number)
    requires LabelAt(s, i, word)
    requires i + |word| < d <= |s| && SeparatorRun(s, i + |word|) == d - (i + |word|)
    requires GroupAt(s, d) == Some(n)
    ensures MatchAt(s, i, word) == Some(Hit(i, d, n))
  {
  }

  /** A match with no match before it is what the search for the word finds. */
  lemma FoundAt(s: string, word: string, h: Hit)
    requires h.start < |s| && MatchAt(s, h.start, word) == Some(h)
    requires forall i :: 0 <= i < h.start ==> MatchAt(s, i, word).None?
    ensures Found(s, word) == Some(Value(h.number))
  {
    FirstSuccessAt(Attempts(s, word), 0, h.start);
  }

  lemma DigitsValueSnoc(t: string, c: char)
    ensures DigitsValue(t + [c]) == DigitsValue(t) * 10 + DigitValue(c)
  {
    assert (t + [c])[..|t|] == t;
  }

  lemma Value1000()
    ensures Value(Number("1000", None)) == 1000.0
  {
    DigitsValueSnoc("1", '0');
    DigitsValueSnoc("10", '0');
    DigitsValueSnoc("100", '0');
    assert "1" + ['0'] == "10";
    assert "10" + ['0'] == "100";
    assert "100" + ['0'] == "1000";
  }

  lemma Value500()
    ensures Value(Number("500", None)) == 500.0
  {
    DigitsValueSnoc("5", '0');
    DigitsValueSnoc("50", '0');
    assert "5" + ['0'] == "50";
    assert "50" + ['0'] == "500";
  }

  lemma Value1500()
    ensures Value(Number("1500", None)) == 1500.0
  {
    DigitsValueSnoc("1", '5');
    DigitsValueSnoc("15", '0');
    DigitsValueSnoc("150", '0');
    assert "1" + ['5'] == "15";
    assert "15" + ['0'] == "150";
    assert "150" + ['0'] == "1500";
  }

  /** The content of the processor's sample document, written in four pieces
      (one per field) so that each of its characters is cheap to look up. */
  const Sample: string := "Total: 1000, " + "Sum: 500, " + "Amount: 1500, " + "Count: 3"

  lemma SampleText()
    ensures Sample == "Total: 1000, Sum: 500, Amount: 1500, Count: 3"
  {
  }

  lemma SampleAvoids()
    ensures Avoids(Sample, 0, 13, 's')
    ensures Avoids(Sample, 0, 3, 'a')
  {
  }

  lemma SampleAvoidsA()
    ensures Avoids(Sample, 4, 23, 'a')
  {
  }

  lemma SampleAvoidsC()
    ensures Avoids(Sample, 0, 37, 'c')
  {
  }

  lemma TotalSpelled()
    ensures SpellsFrom(Sample, 0, "total", 0)
  {
    assert SpellsFrom(Sample, 0, "total", 5);
    assert SpellsFrom(Sample, 0, "total", 4);
    assert SpellsFrom(Sample, 0, "total", 3);
    assert SpellsFrom(Sample, 0, "total", 2);
    assert SpellsFrom(Sample, 0, "total", 1);
  }

  lemma TotalDigits()
    ensures DigitsAt(Sample, 7) == "1000"
    ensures |Sample| == 45 && Sample[11] != '.'
  {
    assert DigitsAt(Sample, 11) == [];
    assert DigitsAt(Sample, 10) == "0";
    assert DigitsAt(Sample, 9) == "00";
    assert DigitsAt(Sample, 8) == "000";
  }

  lemma TotalSeparator()
    ensures SeparatorRun(Sample, 6) == 1
  {
    assert SeparatorRun(Sample, 7) == 0;
  }

  lemma TotalMatch()
    ensures MatchAt(Sample, 0, "total") == Some(Hit(0, 7, Number("1000", None)))
  {
    TotalSpelled();
    TotalSeparator();
    TotalDigits();
    IntegerMatch(Sample, 0, "total", 7, "1000");
  }

  lemma SampleTotal()
    ensures Found(Sample, "total") == Some(1000.0)
  {
    TotalMatch();
    FoundAt(Sample, "total", Hit(0, 7, Number("1000", None)));
    Value1000();
  }

  lemma SumSpelled()
    ensures SpellsFrom(Sample, 13, "sum", 0)
  {
    assert SpellsFrom(Sample, 13, "sum", 3);
    assert SpellsFrom(Sample, 13, "sum", 2);
    assert SpellsFrom(Sample, 13, "sum", 1);
  }

  lemma SumDigits()
    ensures DigitsAt(Sample, 18) == "500"
    ensures |Sample| == 45 && Sample[21] != '.'
  {
    assert DigitsAt(Sample, 21) == [];
    assert DigitsAt(Sample, 20) == "0";
    assert DigitsAt(Sample, 19) == "00";
  }

  lemma SumSeparator()
    ensures SeparatorRun(Sample, 17) == 1
  {
    assert SeparatorRun(Sample, 18) == 0;
  }

  lemma SumMatch()
    ensures MatchAt(Sample, 13, "sum") == Some(Hit(13, 18, Number("500", None)))
  {
    SumSpelled();
    SumSeparator();
    SumDigits();
    IntegerMatch(Sample, 13, "sum", 18, "500");
  }

  lemma SampleSum()
    ensures Found(Sample, "sum") == Some(500.0)
  {
    SampleAvoids();
    NoMatchBetween(Sample, 0, 13, "sum");
    SumMatch();
    FoundAt(Sample, "sum", Hit(13, 18, Number("500", None)));
    Value500();
  }

  lemma AmountSpelled()
    ensures SpellsFrom(Sample, 23, "amount", 0)
  {
    assert SpellsFrom(Sample, 23, "amount", 6);
    assert SpellsFrom(Sample, 23, "amount", 5);
    assert SpellsFrom(Sample, 23, "amount", 4);
    assert SpellsFrom(Sample, 23, "amount", 3);
    assert SpellsFrom(Sample, 23, "amount", 2);
    assert SpellsFrom(Sample, 23, "amount", 1);
  }

  lemma AmountDigits()
    ensures DigitsAt(Sample, 31) == "1500"
    ensures |Sample| == 45 && Sample[35] != '.'
  {
    assert DigitsAt(Sample, 35) == [];
    assert DigitsAt(Sample, 34) == "0";
    assert DigitsAt(Sample, 33) == "00";
    assert DigitsAt(Sample, 32) == "500";
  }

  lemma AmountSeparator()
    ensures SeparatorRun(Sample, 30) == 1
  {
    assert SeparatorRun(Sample, 31) == 0;
  }

  lemma AmountMatch()
    ensures MatchAt(Sample, 23, "amount") == Some(Hit(23, 31, Number("1500", None)))
  {
    AmountSpelled();
    AmountSeparator();
    AmountDigits();
    IntegerMatch(Sample, 23, "amount", 31, "1500");
  }

  /** The 'a' of "Total" starts no match: an 'l' follows it, not an 'm'. */
  lemma NoAmountInTotal()
    ensures MatchAt(Sample, 3, "amount").None?
  {
    assert !FoldsTo(Sample[3 + 1], "amount"[1]);
  }

  /** No position before that of "Amount" starts a match for "amount". */
  lemma NoAmountBefore()
    ensures forall i :: 0 <= i < 23 ==> MatchAt(Sample, i, "amount").None?
  {
    SampleAvoids();
    NoMatchBetween(Sample, 0, 3, "amount");
    NoAmountInTotal();
    SampleAvoidsA();
    NoMatchBetween(Sample, 4, 23, "amount");
  }

  lemma SampleAmount()
    ensures Found(Sample, "amount") == Some(1500.0)
  {
    NoAmountBefore();
    AmountMatch();
    FoundAt(Sample, "amount", Hit(23, 31, Number("1500", None)));
    Value1500();
  }

  lemma CountSpelled()
    ensures SpellsFrom(Sample, 37, "count", 0)
  {
    assert SpellsFrom(Sample, 37, "count", 5);
    assert SpellsFrom(Sample, 37, "count", 4);
    assert SpellsFrom(Sample, 37, "count", 3);
    assert SpellsFrom(Sample, 37, "count", 2);
    assert SpellsFrom(Sample, 37, "count", 1);
  }

  lemma CountSeparator()
    ensures SeparatorRun(Sample, 43) == 1
  {
    assert SeparatorRun(Sample, 44) == 0;
  }

  lemma CountDigits()
    ensures DigitsAt(Sample, 44) == "3"
    ensures |Sample| == 45
  {
    assert DigitsAt(Sample, 45) == [];
  }

  lemma CountMatch()
    ensures MatchAt(Sample, 37, "count") == Some(Hit(37, 44, Number("3", None)))
  {
    CountSpelled();
    CountSeparator();
    CountDigits();
    IntegerMatch(Sample, 37, "count", 44, "3");
  }

  lemma SampleCount()
    ensures Found(Sample, "count") == Some(3.0)
  {
    SampleAvoidsC();
    NoMatchBetween(Sample, 0, 37, "count");
    CountMatch();
    FoundAt(Sample, "count", Hit(37, 44, Number("3", None)));
  }

  /** Assembling four recorded values lists all four labels in label order. */
  lemma AssembleFour(t: real, s: real, a: real, c: real)
    requires t >= 0.0 && s >= 0.0 && a >= 0.0 && c >= 0.0
    ensures Assemble([Some(t), Some(s), Some(a), Some(c)], 0)
         == [Field("total", t), Field("sum", s), Field("amount", a), Field("count", c)]
  {
    var f := [Some(t), Some(s), Some(a), Some(c)];
    assert Assemble(f, 4) == [];
    assert Assemble(f, 3) == [Field("count", c)];
    assert Assemble(f, 2) == [Field("amount", a), Field("count", c)];
    assert Assemble(f, 1) == [Field("sum", s), Field("amount", a), Field("count", c)];
  }

  /** When every label is found, the result lists all four in label order. */
  lemma ExtractAllFound(content: string, t: real, s: real, a: real, c: real)
    requires Found(content, "total") == Some(t) && Found(content, "sum") == Some(s)
    requires Found(content, "amount") == Some(a) && Found(content, "count") == Some(c)
    ensures Extract(content) == [Field("total", t), Field("sum", s), Field("amount", a), Field("count", c)]
  {
    assert Finds(content) == [Some(t), Some(s), Some(a), Some(c)];
    AssembleFour(t, s, a, c);
  }

  /** `_extract_numeric_fields` on the sample document. */
  lemma ExtractSample()
    ensures Extract(Sample)
         == [Field("total", 1000.0), Field("sum", 500.0), Field("amount", 1500.0), Field("count", 3.0)]
  {
    SampleTotal();
    SampleSum();
    SampleAmount();
    SampleCount();
    ExtractAllFound(Sample, 1000.0, 500.0, 1500.0, 3.0);
  }

  /** A label whose pattern matches nowhere records nothing. */
  lemma NoneFound(content: string, j: nat)
    requires j < |Labels| && forall i :: !PatternAt(content, i, Labels[j])
    ensures Found(content, Labels[j]) == None
  {
    FirstMatchIsLeftmost(content, Labels[j]);
  }

  /** Content in which no label's pattern matches gives an empty dictionary;
      missing labels are not an error. */
  lemma ExtractNothing(content: string)
    requires forall j, i :: 0 <= j < |Labels| ==> !PatternAt(content, i, Labels[j])
    ensures Extract(content) == []
  {
    NoneFound(content, 0);
    NoneFound(content, 1);
    NoneFound(content, 2);
    NoneFound(content, 3);
    var f := Finds(content);
    assert f == [None, None, None, None];
    assert Assemble(f, 4) == [];
    assert Assemble(f, 3) == [];
    assert Assemble(f, 2) == [];
    assert Assemble(f, 1) == [];
  }
}
