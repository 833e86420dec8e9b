/**
  What the `Key: value` pairs of a text are (core/parser/extractors.go), said of the text itself: where a key starts,
  where a value ends, and which pairs there are.
 */
module PropertyPairs {
  import opened PropertyScanner

  /** Letters, digits, underscore and full stop, by code. */
  predicate KeyByte(c: char) {
    var n := c as int;
    65 <= n <= 90 || 97 <= n <= 122 || 48 <= n <= 57 || n == 95 || n == 46
  }

  /** A key from `i` to the colon at `j`, which a blank, a tab or the end of the text follows. */
  predicate KeyFrom(text: string, i: nat, j: nat) {
    && i < j < |text| && (forall k :: i <= k < j ==> KeyByte(text[k]))
    && text[j] == ':' && (j + 1 == |text| || text[j + 1] == ' ' || text[j + 1] == '\t')
  }

  ghost predicate KeyStarts(text: string, i: nat) {
    exists j :: KeyFrom(text, i, j)
  }

  ghost predicate NoKeyIn(text: string, lo: nat, hi: nat) {
    forall i :: lo <= i < hi ==> !KeyStarts(text, i)
  }

  /** The first triple quote from `p` on is at `q`, or there is none and `q` is the end. */
  predicate FirstQuotes(text: string, p: nat, q: nat) {
    && p <= q <= |text| && (forall i :: p <= i < q ==> !TripleQuote(text, i)) && (q < |text| ==> TripleQuote(text, q))
  }

  predicate TripleQuote(text: string, i: nat) {
    i + 3 <= |text| && text[i..i + 3] == "'''"
  }

  /** The text quoted from `q` on ends at `r`: past the next triple quote, or with the text. */
  predicate QuotedTo(text: string, q: nat, r: nat) {
    q + 3 <= |text| &&
    (|| (FirstQuotes(text, q + 3, |text|) && r == |text|)
     || (q + 6 <= r <= |text| && FirstQuotes(text, q + 3, r - 3)))
  }

  /** A value that goes on outside quotes at `p` ends at `e`: at the first key that is not quoted, or with the text. */
  ghost predicate ValueEnds(text: string, p: nat, e: nat)
    decreases |text| - p
  {
    p <= |text| &&
    exists q: nat :: FirstQuotes(text, p, q) &&
      (|| (p <= e <= q && NoKeyIn(text, p, e) && (e == |text| || KeyStarts(text, e)))
       || (q < |text| && NoKeyIn(text, p, q) &&
           exists r: nat :: QuotedTo(text, q, r) && p < r && ValueEnds(text, r, e)))
  }

  /** A pair: where its key starts, its colon, and where its value ends. */
  datatype Pair = Pair(start: nat, colon: nat, end: nat)

  /** The pairs from `pos` on: each key is the first one, and its value goes on to the next. */
  ghost predicate ArePairs(text: string, pos: nat, pairs: seq<Pair>)
    decreases |pairs|
  {
    if pairs == [] then NoKeyIn(text, pos, |text|)
    else
      var p := pairs[0];
      && pos <= p.start && NoKeyIn(text, pos, p.start) && KeyFrom(text, p.start, p.colon)
      && ValueEnds(text, p.colon + 1, p.end) && p.end <= |text| && ArePairs(text, p.end, pairs[1..])
  }

  /** The properties they give: a later value for a key takes the place of an earlier one. */
  ghost function Properties(
    text: string, pairs: seq<Pair>, clean: string -> string, props: map<string, string>): map<string, string>
  {
    if pairs == [] then props
    else
      var p := pairs[0];
      if p.start <= p.colon < p.end <= |text| then
        Properties(text, pairs[1..], clean, props[text[p.start..p.colon] := clean(text[p.colon + 1..p.end])])
      else props
  }

  // ----- The scanners find them -----

  lemma KeyBytes(c: char)
    ensures IsKeyChar(c) <==> KeyByte(c)
  {}

  /** A key's run is as long as it can be. */
  lemma KeyRun(text: string, i: nat, j: nat)
    requires i <= |text|
    ensures KeyFrom(text, i, j) ==> j == RunEnd(text, i)
    ensures i < |text| && IsKeyChar(text[i]) && EndsKey(text, RunEnd(text, i)) ==> KeyFrom(text, i, RunEnd(text, i))
    ensures KeyStarts(text, i) <==> i < |text| && IsKeyChar(text[i]) && EndsKey(text, RunEnd(text, i))
  {
    hide RunEnd, IsKeyChar, KeyByte;
    forall c ensures IsKeyChar(c) <==> KeyByte(c) { KeyBytes(c); }
    assert !IsKeyChar(':') by { KeyBytes(':'); ColonIsNoKey(); }
  }

  lemma ColonIsNoKey()
    ensures !KeyByte(':')
  {}

  lemma {:induction false} NextKeyMeaning(text: string, pos: nat)
    requires pos <= |text|
    ensures match SlowNextKey(text, pos)
            case NoKey => NoKeyIn(text, pos, |text|)
            case KeyAt(start, end) => pos <= start && NoKeyIn(text, pos, start) && KeyFrom(text, start, end)
    decreases |text| - pos
  {
    hide KeyFrom, KeyStarts, EndsKey, RunEnd, IsKeyChar;
    if pos < |text| {
      KeyRun(text, pos, RunEnd(text, pos));
      NextKeyMeaning(text, pos + 1);
    }
  }

  lemma QuotesMean(text: string, i: nat)
    ensures QuotesAt(text, i) <==> TripleQuote(text, i)
  {}

  lemma {:induction false} AfterQuotesMeaning(text: string, i: nat)
    requires i <= |text|
    ensures var r := AfterQuotes(text, i);
            (FirstQuotes(text, i, |text|) && r == |text|) || (i + 3 <= r && FirstQuotes(text, i, r - 3))
    decreases |text| - i
  {
    hide TripleQuote;
    QuotesMean(text, i);
    if i < |text| && !QuotesAt(text, i) {
      AfterQuotesMeaning(text, i + 1);
    }
    QuotesMean(text, |text|);
  }

  lemma {:induction false} SomeQuotes(text: string, p: nat) returns (q: nat)
    requires p <= |text|
    ensures FirstQuotes(text, p, q)
    decreases |text| - p
  {
    hide TripleQuote;
    if p == |text| || TripleQuote(text, p) {
      q := p;
    } else {
      q := SomeQuotes(text, p + 1);
    }
  }

  /** The value may as well be looked at from a byte before, if neither a key nor a quotation starts there. */
  lemma FromByteBefore(text: string, p: nat, e: nat)
    requires p < |text| && !KeyStarts(text, p) && !TripleQuote(text, p) && ValueEnds(text, p + 1, e)
    ensures ValueEnds(text, p, e)
  {
    hide TripleQuote, KeyStarts, QuotedTo;
    var q: nat :| FirstQuotes(text, p + 1, q) &&
      (|| (p + 1 <= e <= q && NoKeyIn(text, p + 1, e) && (e == |text| || KeyStarts(text, e)))
       || (q < |text| && NoKeyIn(text, p + 1, q) &&
           exists r: nat :: QuotedTo(text, q, r) && p + 1 < r && ValueEnds(text, r, e)));
    assert FirstQuotes(text, p, q);
    assert NoKeyIn(text, p + 1, e) ==> NoKeyIn(text, p, e);
    assert NoKeyIn(text, p + 1, q) ==> NoKeyIn(text, p, q);
  }

  lemma QuoteIsNoKey(text: string, p: nat)
    requires p < |text|
    ensures text[p] == '$' || text[p] == ' ' || text[p] == '\t' || text[p] == '\'' ==> !KeyStarts(text, p)
    ensures text[p] != '\'' ==> !TripleQuote(text, p)
  {
    if TripleQuote(text, p) {
      assert text[p] == text[p..p + 3][0];
    }
  }

  lemma QuotedValue(text: string, q: nat, e: nat)
    requires q < |text| && QuotesAt(text, q) && ValueEnds(text, AfterQuotes(text, q + 3), e)
    ensures ValueEnds(text, q, e)
  {
    hide TripleQuote, KeyStarts;
    QuotesMean(text, q);
    AfterQuotesMeaning(text, q + 3);
    var r := AfterQuotes(text, q + 3);
    assert QuotedTo(text, q, r);
    assert FirstQuotes(text, q, q) && NoKeyIn(text, q, q);
  }

  lemma {:induction false} ScanMeaning(text: string, pos: nat)
    requires pos <= |text|
    ensures ValueEnds(text, pos, SlowScanValue(text, pos))
    decreases |text| - pos
  {
    hide ValueEnds, KeyStarts, TripleQuote, IsKeyChar, EndsKey, RunEnd, AfterQuotes;
    if pos == |text| {
      NothingFollows(text);
    } else {
      ValueStep(text, pos);
      QuoteIsNoKey(text, pos);
      QuotesMean(text, pos);
      KeyRun(text, pos, RunEnd(text, pos));
      if text[pos] == '$' && QuotesAt(text, pos + 1) {
        ScanMeaning(text, AfterQuotes(text, pos + 4));
        QuotedValue(text, pos + 1, SlowScanValue(text, pos));
        FromByteBefore(text, pos, SlowScanValue(text, pos));
      } else if QuotesAt(text, pos) {
        ScanMeaning(text, AfterQuotes(text, pos + 3));
        QuotedValue(text, pos, SlowScanValue(text, pos));
      } else if KeyStarts(text, pos) {
        EndsHere(text, pos);
      } else {
        ScanMeaning(text, pos + 1);
        FromByteBefore(text, pos, SlowScanValue(text, pos));
      }
    }
  }

  lemma NothingFollows(text: string)
    ensures ValueEnds(text, |text|, |text|)
  {
    assert FirstQuotes(text, |text|, |text|) && NoKeyIn(text, |text|, |text|);
  }

  lemma EndsHere(text: string, p: nat)
    requires p < |text| && KeyStarts(text, p)
    ensures ValueEnds(text, p, p)
  {
    var q := SomeQuotes(text, p);
    assert NoKeyIn(text, p, p);
  }

  lemma {:induction false} BlanksMeaning(text: string, p: nat, e: nat)
    requires p <= |text| && ValueEnds(text, SkipBlanks(text, p), e)
    ensures ValueEnds(text, p, e)
    decreases |text| - p
  {
    hide ValueEnds, KeyStarts, TripleQuote;
    if p < |text| && IsBlank(text[p]) {
      BlanksMeaning(text, p + 1, e);
      QuoteIsNoKey(text, p);
      FromByteBefore(text, p, e);
    }
  }

  lemma ValueEndMeaning(text: string, start: nat)
    requires start <= |text|
    ensures ValueEnds(text, start, SlowValueEnd(text, start))
  {
    hide ValueEnds, SlowScanValue, SkipBlanks;
    ScanMeaning(text, SkipBlanks(text, start));
    BlanksMeaning(text, start, SlowValueEnd(text, start));
  }

  /** The scanners give the properties of the pairs there are. */
  lemma {:induction false} PairsMeaning(text: string, pos: nat, clean: string -> string, props: map<string, string>)
    returns (pairs: seq<Pair>)
    requires pos <= |text|
    ensures ArePairs(text, pos, pairs) && SlowPairs(text, pos, clean, props) == Properties(text, pairs, clean, props)
    decreases |text| - pos
  {
    hide KeyFrom, KeyStarts, ValueEnds, SlowNextKey, SlowValueEnd, SlowScanValue, NoKeyIn;
    NextKeyMeaning(text, pos);
    SlowKeyInside(text, pos);
    match SlowNextKey(text, pos)
    case NoKey => pairs := [];
    case KeyAt(start, end) =>
      var valEnd := SlowValueEnd(text, end + 1);
      ValueEndMeaning(text, end + 1);
      EndInside(text, end + 1);
      var rest := PairsMeaning(text, valEnd, clean, props[text[start..end] := clean(text[end + 1..valEnd])]);
      pairs := [Pair(start, end, valEnd)] + rest;
      assert pairs[1..] == rest;
  }

  lemma EndInside(text: string, start: nat)
    requires start <= |text|
    ensures start <= SlowValueEnd(text, start) <= |text|
  {}

  // ----- There is one answer -----

  lemma OneFirst(text: string, p: nat, q: nat, r: nat)
    requires FirstQuotes(text, p, q) && FirstQuotes(text, p, r)
    ensures q == r
  {
    hide TripleQuote;
  }

  lemma OneQuoted(text: string, q: nat, r: nat, s: nat)
    requires QuotedTo(text, q, r) && QuotedTo(text, q, s)
    ensures r == s
  {
    hide FirstQuotes;
    var from := q + 3;
    var c := SomeQuotes(text, from);
    forall a: nat | FirstQuotes(text, from, a) ensures a == c { OneFirst(text, from, a, c); }
  }

  lemma NoKeyOnQuotes(text: string, p: nat, q: nat)
    requires FirstQuotes(text, p, q)
    ensures q < |text| ==> !KeyStarts(text, q)
  {
    if q < |text| {
      assert text[q..q + 3][0] == '\'';
      QuoteIsNoKey(text, q);
    }
  }

  lemma {:induction false} OneEnd(text: string, p: nat, e: nat, f: nat)
    requires ValueEnds(text, p, e) && ValueEnds(text, p, f)
    ensures e == f
    decreases |text| - p
  {
    hide KeyStarts, QuotedTo, FirstQuotes;
    var q := SomeQuotes(text, p);
    forall a: nat | FirstQuotes(text, p, a) ensures a == q { OneFirst(text, p, a, q); }
    NoKeyOnQuotes(text, p, q);
    assert p <= q <= |text| by { FirstInside(text, p, q); }
    if q < |text| && NoKeyIn(text, p, q) {
      forall r: nat, s: nat | QuotedTo(text, q, r) && QuotedTo(text, q, s) ensures r == s { OneQuoted(text, q, r, s); }
      forall r: nat | QuotedTo(text, q, r) && p < r && ValueEnds(text, r, e) && ValueEnds(text, r, f)
        ensures e == f
      {
        ValueInside(text, r, e);
        OneEnd(text, r, e, f);
      }
    }
  }

  lemma FirstInside(text: string, p: nat, q: nat)
    requires FirstQuotes(text, p, q)
    ensures p <= q <= |text|
  {}

  lemma ValueInside(text: string, p: nat, e: nat)
    requires ValueEnds(text, p, e)
    ensures p <= |text|
  {}

  lemma {:induction false} OneList(text: string, pos: nat, a: seq<Pair>, b: seq<Pair>)
    requires ArePairs(text, pos, a) && ArePairs(text, pos, b)
    ensures a == b
    decreases |a|
  {
    hide KeyFrom, ValueEnds;
    if a != [] {
      assert KeyStarts(text, a[0].start) && a[0].start < |text| by { KeyInside(text, a[0].start, a[0].colon); }
    }
    if b != [] {
      assert KeyStarts(text, b[0].start) && b[0].start < |text| by { KeyInside(text, b[0].start, b[0].colon); }
    }
    hide KeyStarts;
    if a != [] && b != [] {
      assert a[0].start == b[0].start;
      KeyRun(text, a[0].start, a[0].colon);
      KeyRun(text, a[0].start, b[0].colon);
      OneEnd(text, a[0].colon + 1, a[0].end, b[0].end);
      OneList(text, a[0].end, a[1..], b[1..]);
      assert a == [a[0]] + a[1..] && b == [b[0]] + b[1..];
    }
  }

  lemma KeyInside(text: string, i: nat, j: nat)
    requires KeyFrom(text, i, j)
    ensures KeyStarts(text, i) && i < |text|
  {}

  /** `extractKeyValuePairs` gives the properties of the one list of pairs there is. */
  lemma TextMeaning(text: string, clean: string -> string, initial: map<string, string>, pairs: seq<Pair>)
    ensures exists found :: ArePairs(text, 0, found)
    ensures ArePairs(text, 0, pairs) ==> SlowPairs(text, 0, clean, initial) == Properties(text, pairs, clean, initial)
  {
    var found := PairsMeaning(text, 0, clean, initial);
    if ArePairs(text, 0, pairs) {
      OneList(text, 0, found, pairs);
    }
  }
}
