/**
  Where the text of a patch goes (core/analyzer/autofix.go): what one operation does to the lines and to one line, and
  what a patch of mixed kinds comes to.
 */
module PatchEffects {
  import opened SourcePatch

  // ----- One line -----

  /** `t` is in `s` at `i`. */
  predicate Occurs(s: string, t: string, i: nat) {
    i + |t| <= |s| && s[i..i + |t|] == t
  }

  predicate OccursFirst(s: string, t: string, i: nat) {
    Occurs(s, t, i) && forall j :: 0 <= j < i ==> !Occurs(s, t, j)
  }

  lemma OccursLater(s: string, t: string, i: nat)
    requires s != []
    ensures Occurs(s, t, i + 1) <==> Occurs(s[1..], t, i)
  {
    if i + 1 + |t| <= |s| {
      assert s[1..][i..i + |t|] == s[i + 1..i + 1 + |t|];
    }
  }

  lemma FirstLater(s: string, t: string, i: nat)
    requires s != [] && !Occurs(s, t, 0)
    ensures OccursFirst(s, t, i + 1) ==> OccursFirst(s[1..], t, i)
    ensures (forall j: nat :: !Occurs(s, t, j)) ==> forall j: nat :: !Occurs(s[1..], t, j)
  {
    forall j: nat ensures Occurs(s, t, j + 1) <==> Occurs(s[1..], t, j) {
      OccursLater(s, t, j);
    }
    hide Occurs;
    if OccursFirst(s, t, i + 1) {
      forall j | 0 <= j < i ensures !Occurs(s[1..], t, j) {
        assert !Occurs(s, t, j + 1);
      }
    }
    if forall j: nat :: !Occurs(s, t, j) {
      forall j: nat ensures !Occurs(s[1..], t, j) {
        assert !Occurs(s, t, j + 1);
      }
    }
  }

  lemma StartsWithOccurs(s: string, t: string)
    ensures StartsWith(s, t) <==> Occurs(s, t, 0)
    ensures forall i: nat :: Occurs(s, t, i) ==> i + |t| <= |s|
  {}

  lemma FirstUnfolds(s: string, t: string, new': string)
    ensures ReplaceFirst(s, t, new') ==
            if StartsWith(s, t) then new' + s[|t|..] else if s == [] then s else [s[0]] + ReplaceFirst(s[1..], t, new')
  {}

  lemma AllUnfolds(s: string, t: string, new': string)
    requires t != ""
    ensures ReplaceAll(s, t, new') ==
            if s == [] then []
            else if StartsWith(s, t) then new' + ReplaceAll(s[|t|..], t, new')
            else [s[0]] + ReplaceAll(s[1..], t, new')
  {}

  lemma ConsParts(s: string, i: nat, n: nat)
    requires 0 < i && i + n <= |s|
    ensures [s[0]] + s[1..][..i - 1] == s[..i] && s[1..][i - 1 + n..] == s[i + n..]
  {}

  /** The first occurrence is replaced, and nothing where there is none. */
  lemma {:induction false} ReplaceFirstMeaning(s: string, t: string, new': string, i: nat)
    ensures OccursFirst(s, t, i) ==> i + |t| <= |s| && ReplaceFirst(s, t, new') == s[..i] + new' + s[i + |t|..]
    ensures (forall j: nat :: !Occurs(s, t, j)) ==> ReplaceFirst(s, t, new') == s
  {
    hide ReplaceFirst, Occurs, StartsWith;
    StartsWithOccurs(s, t);
    FirstUnfolds(s, t, new');
    if !StartsWith(s, t) && s != [] {
      var k := if i > 0 then i - 1 else 0;
      ReplaceFirstMeaning(s[1..], t, new', k);
      FirstLater(s, t, k);
      if OccursFirst(s, t, i) {
        ConsParts(s, i, |t|);
        assert ReplaceFirst(s, t, new') == ([s[0]] + s[1..][..i - 1]) + new' + s[1..][i - 1 + |t|..];
      }
    }
  }

  /** Every occurrence is replaced, from the left and without overlap: the first one, and then those after it. */
  lemma {:induction false} ReplaceAllMeaning(s: string, t: string, new': string, i: nat)
    requires t != ""
    ensures OccursFirst(s, t, i) ==>
              i + |t| <= |s| && ReplaceAll(s, t, new') == s[..i] + new' + ReplaceAll(s[i + |t|..], t, new')
    ensures (forall j: nat :: !Occurs(s, t, j)) ==> ReplaceAll(s, t, new') == s
  {
    hide ReplaceAll, Occurs, StartsWith;
    StartsWithOccurs(s, t);
    AllUnfolds(s, t, new');
    if !StartsWith(s, t) && s != [] {
      var k := if i > 0 then i - 1 else 0;
      ReplaceAllMeaning(s[1..], t, new', k);
      FirstLater(s, t, k);
      if OccursFirst(s, t, i) {
        ConsParts(s, i, |t|);
        var after := ReplaceAll(s[i + |t|..], t, new');
        assert ReplaceAll(s, t, new') == ([s[0]] + s[1..][..i - 1]) + new' + after;
      }
    }
  }

  /** `key` starts a word of `line` at `i`. */
  predicate KeyStarts(line: string, key: string, i: nat) {
    Occurs(line, key, i) && (i == 0 || line[i - 1] == ' ' || line[i - 1] == '\t')
  }

  lemma {:induction false} KeyAtMeaning(line: string, key: string, i: nat)
    requires i <= |line| && key != ""
    ensures var at := KeyAt(line, key, i);
            && i <= at <= |line| && (at < |line| ==> KeyStarts(line, key, at))
            && forall j :: i <= j < at ==> !KeyStarts(line, key, j)
    decreases |line| - i
  {
    if i < |line| {
      if i + |key| <= |line| {
        assert line[i..][..|key|] == line[i..i + |key|];
      }
      KeyAtMeaning(line, key, i + 1);
    }
  }

  lemma InPropertyUnfolds(line: string, property: string, t: string, new': string)
    ensures var key := property + ":";
            var at := KeyAt(line, key, 0);
            ReplaceInProperty(line, property, t, new') ==
            if at + |key| > |line| then line else line[..at + |key|] + ReplaceFirst(line[at + |key|..], t, new')
  {
    hide KeyAt, ReplaceFirst;
  }

  lemma KeyInside(line: string, key: string, at: nat)
    requires KeyStarts(line, key, at)
    ensures at + |key| <= |line|
  {}

  /** In a property, the text after the first `property:` that starts a word has its first occurrence replaced; a line
      without one stays as it is. */
  lemma InPropertyMeaning(line: string, property: string, t: string, new': string, at: nat)
    ensures var key := property + ":";
            && ((forall j: nat :: !KeyStarts(line, key, j)) ==> ReplaceInProperty(line, property, t, new') == line)
            && (KeyStarts(line, key, at) && (forall j :: 0 <= j < at ==> !KeyStarts(line, key, j)) ==>
                  at + |key| <= |line| &&
                  ReplaceInProperty(line, property, t, new') ==
                  line[..at + |key|] + ReplaceFirst(line[at + |key|..], t, new'))
  {
    hide ReplaceFirst, KeyAt, KeyStarts, ReplaceInProperty;
    var key := property + ":";
    KeyAtMeaning(line, key, 0);
    InPropertyUnfolds(line, property, t, new');
    forall j: nat ensures KeyStarts(line, key, j) ==> j + |key| <= |line| {
      if KeyStarts(line, key, j) { KeyInside(line, key, j); }
    }
  }

  // ----- The lines in place -----

  /** Line `n` after the replacements that name it, in the given order. */
  function Replaced(ops: seq<Op>, n: nat, line: Line): Line {
    if ops == [] then line
    else
      var op := ops[0];
      var now :=
        if !op.Replace? || op.startLine != n || FirstLine(op.search) == "" then line
        else if op.property == "" then ReplaceAll(line, FirstLine(op.search), op.replacement)
        else ReplaceInProperty(line, op.property, FirstLine(op.search), op.replacement);
      Replaced(ops[1..], n, now)
  }

  /** What the appends that name line `n` put at its end: the first line of each text, in the given order. */
  function AppendedText(ops: seq<Op>, n: nat): string {
    if ops == [] then ""
    else
      var op := ops[0];
      (if op.Append? && op.startLine == n && op.lines != [] then op.lines[0] else "") + AppendedText(ops[1..], n)
  }

  lemma PassUnfolds(lines: seq<Line>, ops: seq<Op>, pick: Op -> bool)
    requires ops != []
    ensures ApplyAll(lines, Filter(ops, pick)) ==
            ApplyAll(if pick(ops[0]) then ApplyOp(lines, ops[0]) else lines, Filter(ops[1..], pick))
  {
    hide ApplyOp;
    var rest := Filter(ops[1..], pick);
    assert ([ops[0]] + rest)[1..] == rest && [] + rest == rest;
  }

  lemma {:induction false} ReplacesInPlace(lines: seq<Line>, ops: seq<Op>)
    ensures var next := ApplyAll(lines, Filter(ops, IsReplace));
            |next| == |lines| && forall k :: 0 <= k < |lines| ==> next[k] == Replaced(ops, k + 1, lines[k])
    decreases |ops|
  {
    if ops != [] {
      hide ReplaceAll, ReplaceInProperty, FirstLine;
      PassUnfolds(lines, ops, IsReplace);
      var now := if ops[0].Replace? then ApplyReplace(lines, ops[0]) else lines;
      ReplacesInPlace(now, ops[1..]);
      hide ApplyAll, Filter;
    }
  }

  lemma Regroup(a: string, b: string, c: string)
    ensures (a + b) + c == a + (b + c)
  {
  }

  lemma AppendedUnfolds(lines: seq<Line>, ops: seq<Op>, k: nat)
    requires ops != [] && k < |lines|
    ensures var now := if ops[0].Append? then ApplyAppend(lines, ops[0]) else lines;
            now[k] + AppendedText(ops[1..], k + 1) == lines[k] + AppendedText(ops, k + 1)
  {
    var op, rest := ops[0], AppendedText(ops[1..], k + 1);
    var own := if op.Append? && op.startLine == k + 1 && op.lines != [] then op.lines[0] else "";
    assert AppendedText(ops, k + 1) == own + rest;
    hide AppendedText;
    Regroup(lines[k], own, rest);
    var now := if op.Append? then ApplyAppend(lines, op) else lines;
    assert now[k] == lines[k] + own;
  }

  lemma {:induction false} AppendsInPlace(lines: seq<Line>, ops: seq<Op>)
    ensures var next := ApplyAll(lines, Filter(ops, IsAppend));
            |next| == |lines| && forall k :: 0 <= k < |lines| ==> next[k] == lines[k] + AppendedText(ops, k + 1)
    decreases |ops|
  {
    if ops != [] {
      PassUnfolds(lines, ops, IsAppend);
      var now := if ops[0].Append? then ApplyAppend(lines, ops[0]) else lines;
      AppendsInPlace(now, ops[1..]);
      hide ApplyAll, Filter, AppendedText;
      assert |now| == |lines|;
      forall k | 0 <= k < |lines|
        ensures now[k] + AppendedText(ops[1..], k + 1) == lines[k] + AppendedText(ops, k + 1)
      {
        AppendedUnfolds(lines, ops, k);
      }
    }
  }

  // ----- Wraps -----

  /** The lines of a header or footer; an empty one has none. */
  function Around(text: string): seq<Line> {
    if text == "" then [] else Split(text)
  }

  /** A wrap in range keeps the lines before and after it, indents its own, and puts header and footer around them; one
      that starts out of range does nothing, and an end beyond the last line counts as that. */
  lemma WrapMeaning(lines: seq<Line>, op: Op)
    requires op.Wrap?
    ensures var next := ApplyWrap(lines, op);
            if 1 <= op.startLine <= |lines| then
              var start, h := op.startLine - 1, |Around(op.header)|;
              var end := if op.endLine < start then start else if op.endLine > |lines| then |lines| else op.endLine;
              var pad := if op.indentDelta > 0 then Repeat("    ", op.indentDelta) else "";
              && |next| == |lines| + h + |Around(op.footer)|
              && (forall k :: 0 <= k < start ==> next[k] == lines[k])
              && (forall k :: 0 <= k < h ==> next[start + k] == Around(op.header)[k])
              && (forall k :: start <= k < end ==> next[h + k] == pad + lines[k])
              && (forall k :: 0 <= k < |Around(op.footer)| ==> next[h + end + k] == Around(op.footer)[k])
              && (forall k :: end <= k < |lines| ==> next[h + |Around(op.footer)| + k] == lines[k])
            else next == lines
  {
    hide Split, Repeat;
  }

  // ----- Patches of mixed kinds -----

  /** What replacements and appends make of the lines: each line on its own, replacements first. */
  ghost predicate EditedInPlace(lines: seq<Line>, ops: seq<Op>, next: seq<Line>) {
    && |next| == |lines|
    && forall k :: 0 <= k < |lines| ==> next[k] == Replaced(ops, k + 1, lines[k]) + AppendedText(ops, k + 1)
  }

  /** A patch of mixed kinds: the removals go by the numbers of the source, all other operations by those of what the
      removals leave; replacements and appends by those of what the wraps make of it, and the insertions put their
      lines in at the end, all by the same numbers. */
  lemma MixedPatch(byStart: Sorter, byLine: Sorter, lines: seq<Line>, ops: seq<Op>)
    requires SortsRemoves(byStart) && SortsInserts(byLine)
    requires DisjointRanges(Filter(ops, IsRemove)) && DistinctTargets(Filter(ops, IsInsert))
    ensures var left := Kept(lines, Filter(ops, IsRemove), |lines|);
            exists next :: EditedInPlace(ApplyAll(left, Filter(ops, IsWrap)), ops, next) &&
                           EditLines(byStart, byLine, lines, ops) == Woven(next, Filter(ops, IsInsert), |next|)
  {
    var removes, inserts := Filter(ops, IsRemove), Filter(ops, IsInsert);
    RemovesOnly(byStart, byLine, lines, removes);
    OnlyRemoves(byStart, byLine, lines, removes);
    var left := Kept(lines, removes, |lines|);
    var wrapped := ApplyAll(left, Filter(ops, IsWrap));
    ReplacesInPlace(wrapped, ops);
    var replaced := ApplyAll(wrapped, Filter(ops, IsReplace));
    AppendsInPlace(replaced, ops);
    var next := ApplyAll(replaced, Filter(ops, IsAppend));
    InsertsOnly(byStart, byLine, next, inserts);
    OnlyInserts(byStart, byLine, next, inserts);
    hide Kept, ApplyAll, Woven, Replaced, AppendedText, Filter;
    hide SortsRemoves, SortsInserts, DisjointRanges, DistinctTargets;
    assert EditedInPlace(wrapped, ops, next);
  }
}
