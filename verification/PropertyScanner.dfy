/**
  The `Key: value` scanner of the parser (core/parser/extractors.go): scanners that skip a whole run of key
  characters at a time, against scanners that resume one byte later; and their linear work.
  Strings are byte strings.
 */
module PropertyScanner {

  predicate IsKeyChar(c: char) {
    'a' <= c <= 'z' || 'A' <= c <= 'Z' || '0' <= c <= '9' || c == '_' || c == '.'
  }

  predicate IsBlank(c: char) { c == ' ' || c == '\t' }

  /** The end of the run of key characters starting at `pos`. */
  function RunEnd(text: string, pos: nat): (r: nat)
    requires pos <= |text|
    ensures pos <= r <= |text|
    ensures forall i :: pos <= i < r ==> IsKeyChar(text[i])
    ensures r < |text| ==> !IsKeyChar(text[r])
    decreases |text| - pos
  {
    if pos < |text| && IsKeyChar(text[pos]) then RunEnd(text, pos + 1) else pos
  }

  /** A run ending at `end` is a key: a colon follows, and then a blank or the end of the text. */
  predicate EndsKey(text: string, end: nat) {
    end < |text| && text[end] == ':' && (end + 1 >= |text| || IsBlank(text[end + 1]))
  }

  // ----- Scanners that resume one byte later -----

  datatype KeyAt = KeyAt(start: nat, end: nat) | NoKey

  function SlowNextKey(text: string, pos: nat): KeyAt
    requires pos <= |text|
    decreases |text| - pos
  {
    if pos == |text| then NoKey
    else if IsKeyChar(text[pos]) && EndsKey(text, RunEnd(text, pos)) then KeyAt(pos, RunEnd(text, pos))
    else SlowNextKey(text, pos + 1)
  }

  predicate QuotesAt(text: string, i: nat) {
    i + 2 < |text| && text[i] == '\'' && text[i + 1] == '\'' && text[i + 2] == '\''
  }

  /** Just past the next triple quote from `i`, or the end of the text if there is none. */
  function AfterQuotes(text: string, i: nat): (r: nat)
    requires i <= |text|
    ensures i <= r <= |text|
    decreases |text| - i
  {
    if i == |text| then i else if QuotesAt(text, i) then i + 3 else AfterQuotes(text, i + 1)
  }

  function SkipBlanks(text: string, pos: nat): (r: nat)
    requires pos <= |text|
    ensures pos <= r <= |text|
    decreases |text| - pos
  {
    if pos < |text| && IsBlank(text[pos]) then SkipBlanks(text, pos + 1) else pos
  }

  function SlowScanValue(text: string, pos: nat): (r: nat)
    requires pos <= |text|
    ensures pos <= r <= |text|
    decreases |text| - pos
  {
    if pos == |text| then pos
    else if text[pos] == '$' && QuotesAt(text, pos + 1) then SlowScanValue(text, AfterQuotes(text, pos + 4))
    else if QuotesAt(text, pos) then SlowScanValue(text, AfterQuotes(text, pos + 3))
    else if IsKeyChar(text[pos]) && EndsKey(text, RunEnd(text, pos)) then pos
    else SlowScanValue(text, pos + 1)
  }

  function SlowValueEnd(text: string, start: nat): nat
    requires start <= |text|
  {
    SlowScanValue(text, SkipBlanks(text, start))
  }

  /** All pairs from `pos` on; `clean` trims and unquotes a value. */
  function SlowPairs(text: string, pos: nat, clean: string -> string, props: map<string, string>): map<string, string>
    requires pos <= |text|
    decreases |text| - pos
  {
    var k := SlowNextKey(text, pos);
    if k.NoKey? then props
    else
      SlowKeyInside(text, pos);
      var valStart := k.end + 1;
      var valEnd := SlowValueEnd(text, valStart);
      SlowPairs(text, valEnd, clean, props[text[k.start..k.end] := clean(text[valStart..valEnd])])
  }

  lemma {:induction false} SlowKeyInside(text: string, pos: nat)
    requires pos <= |text|
    ensures var k := SlowNextKey(text, pos); k.KeyAt? ==> pos <= k.start < k.end < |text| && RunEnd(text, pos) <= k.end
    decreases |text| - pos
  {
    if pos < |text| && !(IsKeyChar(text[pos]) && EndsKey(text, RunEnd(text, pos))) {
      SlowKeyInside(text, pos + 1);
    }
  }

  // ----- Why a whole run may be skipped -----

  lemma {:induction false} SkipRunForKey(text: string, pos: nat, q: nat)
    requires pos <= |text| && pos <= q <= RunEnd(text, pos) && !EndsKey(text, RunEnd(text, pos))
    ensures SlowNextKey(text, pos) == SlowNextKey(text, q)
    decreases q - pos
  {
    if pos < q { SkipRunForKey(text, pos + 1, q); }
  }

  lemma {:induction false} SkipRunForValue(text: string, pos: nat, q: nat)
    requires pos <= |text| && pos <= q <= RunEnd(text, pos) && !EndsKey(text, RunEnd(text, pos))
    ensures SlowScanValue(text, pos) == SlowScanValue(text, q)
    decreases q - pos
  {
    if pos < q { SkipRunForValue(text, pos + 1, q); }
  }

  // ----- The scanners; `work` counts at least the bytes they look at -----

  method FindNextKey(text: string, start: nat) returns (k: KeyAt, work: nat)
    requires start <= |text|
    ensures k == SlowNextKey(text, start)
    ensures work <= 6 * ((if k.KeyAt? then k.end + 1 else |text|) - start)
  {
    var pos := start;
    work := 0;
    while pos < |text|
      invariant start <= pos <= |text| && SlowNextKey(text, start) == SlowNextKey(text, pos)
      invariant work <= 6 * (pos - start)
    {
      work := work + 1;
      if !IsKeyChar(text[pos]) {
        pos := pos + 1;
        continue;
      }
      var keyStart := pos;
      while pos < |text| && IsKeyChar(text[pos])
        invariant keyStart <= pos <= RunEnd(text, keyStart) && RunEnd(text, pos) == RunEnd(text, keyStart)
        invariant work <= 6 * (keyStart - start) + 1 + (pos - keyStart)
      {
        pos := pos + 1;
        work := work + 1;
      }
      var runEnd := pos;
      work := work + 2;
      if runEnd >= |text| || text[runEnd] != ':' {
        SkipRunForKey(text, keyStart, runEnd);
        continue;
      }
      pos := runEnd + 1;
      work := work + 2;
      if pos >= |text| || text[pos] == ' ' || text[pos] == '\t' {
        return KeyAt(keyStart, runEnd), work;
      }
      SkipRunForKey(text, keyStart, runEnd);
    }
    k := NoKey;
  }

  method FindTripleQuoteEnd(text: string, start: nat) returns (r: int, work: nat)
    requires start <= |text|
    ensures r == -1 || start < r <= |text|
    ensures AfterQuotes(text, start) == if r == -1 then |text| else r
    ensures work <= 3 * (AfterQuotes(text, start) - start)
  {
    work := 0;
    var i := start;
    while i + 2 < |text|
      invariant start <= i <= |text| && AfterQuotes(text, start) == AfterQuotes(text, i) && work <= 3 * (i - start)
    {
      work := work + 3;
      if text[i] == '\'' && text[i + 1] == '\'' && text[i + 2] == '\'' { return i + 3, work; }
      i := i + 1;
    }
    NoQuotesLeft(text, i);
    r := -1;
  }

  lemma {:induction false} NoQuotesLeft(text: string, i: nat)
    requires i <= |text| <= i + 2
    ensures AfterQuotes(text, i) == |text|
    decreases |text| - i
  {
    if i < |text| { NoQuotesLeft(text, i + 1); }
  }

  /** The cases of the one-byte scanner. */
  lemma ValueStep(text: string, pos: nat)
    requires pos < |text|
    ensures text[pos] == '$' && QuotesAt(text, pos + 1) ==>
            SlowScanValue(text, pos) == SlowScanValue(text, AfterQuotes(text, pos + 4))
    ensures QuotesAt(text, pos) ==> SlowScanValue(text, pos) == SlowScanValue(text, AfterQuotes(text, pos + 3))
    ensures !(text[pos] == '$' && QuotesAt(text, pos + 1)) && !QuotesAt(text, pos) ==>
              SlowScanValue(text, pos) ==
              if IsKeyChar(text[pos]) && EndsKey(text, RunEnd(text, pos)) then pos else SlowScanValue(text, pos + 1)
    ensures SlowScanValue(text, |text|) == |text|
  {
  }

  /** Looks ahead to the end of the run; three more bytes tell whether it is a key. */
  method PeekRun(text: string, pos: nat) returns (peek: nat, work: nat)
    requires pos < |text| && IsKeyChar(text[pos])
    ensures pos < peek == RunEnd(text, pos) && work <= peek - pos + 3
  {
    peek, work := pos + 1, 3;
    while peek < |text| && IsKeyChar(text[peek])
      invariant pos < peek <= RunEnd(text, pos) && RunEnd(text, peek) == RunEnd(text, pos) && work <= peek - pos + 3
    {
      peek := peek + 1;
      work := work + 1;
    }
  }

  method FindValueEnd(text: string, start: nat) returns (end: nat, work: nat)
    requires start <= |text|
    ensures end == SlowValueEnd(text, start) && start <= end <= |text|
    ensures work <= 12 * (end - start) + 12 * (RunEnd(text, end) - end) + 12
  {
    hide AfterQuotes, SlowScanValue, RunEnd, IsKeyChar;
    var pos := start;
    work := 0;
    while pos < |text| && IsBlank(text[pos])
      invariant start <= pos <= |text| && SkipBlanks(text, pos) == SkipBlanks(text, start) && work <= 2 * (pos - start)
    {
      pos := pos + 1;
      work := work + 2;
    }
    work := work + 2;
    while pos < |text|
      invariant start <= pos <= |text| && SlowScanValue(text, pos) == SlowValueEnd(text, start)
      invariant work <= 12 * (pos - start) + 2
    {
      work := work + 6;
      ValueStep(text, pos);
      if text[pos] == '$' && pos + 3 < |text| && text[pos + 1] == '\'' && text[pos + 2] == '\'' &&
         text[pos + 3] == '\'' {
        assert QuotesAt(text, pos + 1);
        var r, w := FindTripleQuoteEnd(text, pos + 4);
        work := work + w;
        pos := if r == -1 then |text| else r;
        continue;
      }
      if text[pos] == '\'' && pos + 2 < |text| && text[pos + 1] == '\'' && text[pos + 2] == '\'' {
        assert QuotesAt(text, pos);
        var r, w := FindTripleQuoteEnd(text, pos + 3);
        work := work + w;
        pos := if r == -1 then |text| else r;
        continue;
      }
      if IsKeyChar(text[pos]) {
        var peek, w := PeekRun(text, pos);
        work := work + w;
        if peek < |text| && text[peek] == ':' &&
           (peek + 1 >= |text| || text[peek + 1] == ' ' || text[peek + 1] == '\t') {
          return pos, work;
        }
        SkipRunForValue(text, pos, peek);
        pos := peek;
        continue;
      }
      pos := pos + 1;
    }
    end := pos;
  }

  /** `extractKeyValuePairs`: the same pairs as the one-byte scanners, in work linear in the text. */
  method ExtractKeyValuePairs(text: string, clean: string -> string, initial: map<string, string>)
    returns (props: map<string, string>, work: nat)
    ensures props == SlowPairs(text, 0, clean, initial)
    ensures work <= 60 * |text|
  {
    hide SlowNextKey, SlowValueEnd, SlowScanValue;
    var pos := 0;
    props, work := initial, 0;
    while pos < |text|
      invariant pos <= |text| && SlowPairs(text, pos, clean, props) == SlowPairs(text, 0, clean, initial)
      invariant work <= 48 * pos + 12 * (RunEnd(text, pos) - pos)
    {
      var k, w := FindNextKey(text, pos);
      work := work + w;
      SlowKeyInside(text, pos);
      if k.NoKey? { return; }
      var valStart := k.end + 1;
      var valEnd, v := FindValueEnd(text, valStart);
      work := work + v + (valEnd - valStart);
      props := props[text[k.start..k.end] := clean(text[valStart..valEnd])];
      pos := valEnd;
    }
    NoMoreKeys(text, clean, props);
  }

  lemma NoMoreKeys(text: string, clean: string -> string, props: map<string, string>)
    ensures SlowPairs(text, |text|, clean, props) == props
  {}
}
