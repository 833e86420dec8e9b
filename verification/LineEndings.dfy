/**
  When a patch keeps the CRLF convention, and when an insertion appends (core/analyzer/autofix.go, `ApplyPatch`),
  decided from the operations and the number of lines alone.
 */
module LineEndings {
  import opened SourcePatch

  // ----- How many lines a patch leaves -----

  function TextLines(s: string): nat {
    if s == "" then 0 else |Split(s)|
  }

  /** The number of lines one operation leaves of `n`. */
  function LinesAfterOp(n: nat, op: Op): nat {
    match op
    case Insert(b, ls) => if 1 <= b <= n + 1 then n + |ls| else n
    case Wrap(start, _, header, footer, _) => if 1 <= start <= n then n + TextLines(header) + TextLines(footer) else n
    case Remove(start, end) => if 1 <= start <= n then n - (Clamp(end, start - 1, n) - (start - 1)) else n
    case Replace(_, _, _, _) => n
    case Append(_, _) => n
    case Unknown => n
  }

  function LinesAfterAll(n: nat, ops: seq<Op>): nat
    decreases |ops|
  {
    if ops == [] then n else LinesAfterAll(LinesAfterOp(n, ops[0]), ops[1..])
  }

  /** The number of lines a patch leaves of `n`: removals, wraps, insertions; the other operations keep the count. */
  function LinesAfter(byStart: Sorter, byLine: Sorter, n: nat, ops: seq<Op>): nat {
    var removed := LinesAfterAll(n, byStart(Filter(ops, IsRemove)));
    var wrapped := LinesAfterAll(removed, Filter(ops, IsWrap));
    LinesAfterAll(wrapped, byLine(Filter(ops, IsInsert)))
  }

  lemma OpCounts(lines: seq<Line>, op: Op)
    ensures |ApplyOp(lines, op)| == LinesAfterOp(|lines|, op)
  {
    hide Split, ReplaceAll, ReplaceInProperty, FirstLine;
  }

  lemma {:induction false} AllCount(lines: seq<Line>, ops: seq<Op>)
    ensures |ApplyAll(lines, ops)| == LinesAfterAll(|lines|, ops)
    decreases |ops|
  {
    hide ApplyOp, LinesAfterOp;
    if ops != [] {
      OpCounts(lines, ops[0]);
      AllCount(ApplyOp(lines, ops[0]), ops[1..]);
    }
  }

  /** Replacements and appends keep the number of lines. */
  lemma {:induction false} EditsInPlace(n: nat, ops: seq<Op>)
    requires forall o :: o in ops ==> o.Replace? || o.Append?
    ensures LinesAfterAll(n, ops) == n
    decreases |ops|
  {
    if ops != [] {
      assert ops[0] in ops;
      EditsInPlace(n, ops[1..]);
    }
  }

  lemma {:induction false} FilterPicks(ops: seq<Op>, pick: Op -> bool)
    ensures forall o :: o in Filter(ops, pick) ==> o in ops && pick(o)
  {
    if ops != [] {
      FilterPicks(ops[1..], pick);
    }
  }

  /** The count of a patched text is a function of the count before and of the operations. */
  lemma EditCounts(byStart: Sorter, byLine: Sorter, lines: seq<Line>, ops: seq<Op>)
    ensures |EditLines(byStart, byLine, lines, ops)| == LinesAfter(byStart, byLine, |lines|, ops)
  {
    hide ApplyAll, LinesAfterAll, Filter;
    var removes, wraps := byStart(Filter(ops, IsRemove)), Filter(ops, IsWrap);
    var swaps, appends := Filter(ops, IsReplace), Filter(ops, IsAppend);
    var inserts := byLine(Filter(ops, IsInsert));
    var removed := ApplyAll(lines, removes);
    var wrapped := ApplyAll(removed, wraps);
    var replaced := ApplyAll(wrapped, swaps);
    var appended := ApplyAll(replaced, appends);
    AllCount(lines, removes);
    AllCount(removed, wraps);
    AllCount(wrapped, swaps);
    AllCount(replaced, appends);
    AllCount(appended, inserts);
    FilterPicks(ops, IsReplace);
    FilterPicks(ops, IsAppend);
    EditsInPlace(|wrapped|, swaps);
    EditsInPlace(|replaced|, appends);
  }

  // ----- Line feeds inside lines -----

  predicate OneLine(s: string) {
    '\n' !in s
  }

  predicate OneLiners(lines: seq<Line>) {
    forall i :: 0 <= i < |lines| ==> OneLine(lines[i])
  }

  /** The texts an operation puts into lines hold no line feed; headers and footers are split first. */
  predicate Plain(op: Op) {
    match op
    case Insert(_, ls) => OneLiners(ls)
    case Append(_, ls) => OneLiners(ls)
    case Replace(_, _, replacement, _) => OneLine(replacement)
    case _ => true
  }

  lemma {:induction false} SplitGivesLines(s: string)
    ensures OneLiners(Split(s))
  {
    if s != [] {
      SplitGivesLines(s[1..]);
    }
  }

  lemma {:induction false} PadIsBlank(n: nat)
    ensures OneLine(Repeat("    ", n))
  {
    if n > 0 {
      PadIsBlank(n - 1);
    }
  }

  lemma {:induction false} ReplacedLine(s: string, old': string, new': string)
    requires old' != "" && OneLine(s) && OneLine(new')
    ensures OneLine(ReplaceAll(s, old', new'))
    decreases |s|
  {
    if s != [] {
      if StartsWith(s, old') {
        ReplacedLine(s[|old'|..], old', new');
      } else {
        ReplacedLine(s[1..], old', new');
      }
    }
  }

  lemma {:induction false} ReplacedOnce(s: string, old': string, new': string)
    requires OneLine(s) && OneLine(new')
    ensures OneLine(ReplaceFirst(s, old', new'))
  {
    if !StartsWith(s, old') && s != [] {
      ReplacedOnce(s[1..], old', new');
    }
  }

  lemma OpKeepsLines(lines: seq<Line>, op: Op)
    requires OneLiners(lines) && Plain(op)
    ensures OneLiners(ApplyOp(lines, op))
  {
    match op
    case Wrap(_, _, _, _, _) => WrapKeepsLines(lines, op);
    case Replace(_, _, _, _) => ReplaceKeepsLines(lines, op);
    case _ =>
  }

  lemma WrapKeepsLines(lines: seq<Line>, op: Op)
    requires OneLiners(lines) && op.Wrap?
    ensures OneLiners(ApplyWrap(lines, op))
  {
    hide Split, Repeat;
    SplitGivesLines(op.header);
    SplitGivesLines(op.footer);
    if op.indentDelta > 0 {
      PadIsBlank(op.indentDelta);
    }
  }

  lemma ReplaceKeepsLines(lines: seq<Line>, op: Op)
    requires OneLiners(lines) && op.Replace? && OneLine(op.replacement)
    ensures OneLiners(ApplyReplace(lines, op))
  {
    hide Split, ReplaceAll, ReplaceFirst, FirstLine, KeyAt;
    if 1 <= op.startLine <= |lines| && FirstLine(op.search) != "" {
      var line, key := lines[op.startLine - 1], op.property + ":";
      var at := KeyAt(line, key, 0);
      ReplacedLine(line, FirstLine(op.search), op.replacement);
      if at + |key| <= |line| {
        ReplacedOnce(line[at + |key|..], FirstLine(op.search), op.replacement);
      }
    }
  }

  lemma {:induction false} AllKeepLines(lines: seq<Line>, ops: seq<Op>)
    requires OneLiners(lines) && forall o :: o in ops ==> Plain(o)
    ensures OneLiners(ApplyAll(lines, ops))
    decreases |ops|
  {
    hide OneLiners, Plain, ApplyOp;
    if ops != [] {
      OpKeepsLines(lines, ops[0]);
      AllKeepLines(ApplyOp(lines, ops[0]), ops[1..]);
    }
  }

  lemma SameMembers(a: seq<Op>, b: seq<Op>)
    requires multiset(a) == multiset(b)
    ensures forall o :: o in a <==> o in b
  {
    assert forall o :: o in a <==> o in multiset(a);
  }

  lemma PlainPart(ops: seq<Op>, pick: Op -> bool)
    requires forall o :: o in ops ==> Plain(o)
    ensures forall o :: o in Filter(ops, pick) ==> Plain(o)
  {
    hide Filter, Plain;
    FilterPicks(ops, pick);
  }

  lemma RemovesPermuted(byStart: Sorter, ops: seq<Op>)
    requires SortsRemoves(byStart)
    ensures forall o :: o in byStart(Filter(ops, IsRemove)) ==> o in Filter(ops, IsRemove)
  {
    hide Filter, StartsDescend;
    var removes := Filter(ops, IsRemove);
    FilterPicks(ops, IsRemove);
    assert forall i :: 0 <= i < |removes| ==> removes[i] in removes;
    assert multiset(byStart(removes)) == multiset(removes);
    SameMembers(byStart(removes), removes);
  }

  lemma InsertsPermuted(byLine: Sorter, ops: seq<Op>)
    requires SortsInserts(byLine)
    ensures forall o :: o in byLine(Filter(ops, IsInsert)) ==> o in Filter(ops, IsInsert)
  {
    hide Filter, TargetsDescend;
    var inserts := Filter(ops, IsInsert);
    FilterPicks(ops, IsInsert);
    assert forall i :: 0 <= i < |inserts| ==> inserts[i] in inserts;
    assert multiset(byLine(inserts)) == multiset(inserts);
    SameMembers(byLine(inserts), inserts);
  }

  lemma EditKeepsLines(byStart: Sorter, byLine: Sorter, lines: seq<Line>, ops: seq<Op>)
    requires SortsRemoves(byStart) && SortsInserts(byLine) && OneLiners(lines) && forall o :: o in ops ==> Plain(o)
    ensures OneLiners(EditLines(byStart, byLine, lines, ops))
  {
    hide SortsRemoves, SortsInserts, OneLiners, Plain, ApplyAll, Filter;
    var removes, wraps := byStart(Filter(ops, IsRemove)), Filter(ops, IsWrap);
    var swaps, appends := Filter(ops, IsReplace), Filter(ops, IsAppend);
    var inserts := byLine(Filter(ops, IsInsert));
    PlainPart(ops, IsRemove);
    PlainPart(ops, IsWrap);
    PlainPart(ops, IsReplace);
    PlainPart(ops, IsAppend);
    PlainPart(ops, IsInsert);
    RemovesPermuted(byStart, ops);
    InsertsPermuted(byLine, ops);
    var removed := ApplyAll(lines, removes);
    var wrapped := ApplyAll(removed, wraps);
    var swapped := ApplyAll(wrapped, swaps);
    AllKeepLines(lines, removes);
    AllKeepLines(removed, wraps);
    AllKeepLines(wrapped, swaps);
    AllKeepLines(swapped, appends);
    AllKeepLines(ApplyAll(swapped, appends), inserts);
  }

  lemma {:induction false} JoinBreaks(lines: seq<Line>)
    requires OneLiners(lines)
    ensures '\n' in Join(lines) <==> |lines| > 1
  {
    if |lines| > 1 {
      assert Join(lines)[|lines[0]|] == '\n';
    }
  }

  /** For a source without CR LF of its own and a patch whose texts hold no line feed, patching the CRLF form is
      the CRLF form of patching exactly when there is nothing to do, the source has a line break already, or the
      operations leave at most one line. */
  lemma CrlfKeptExactly(byStart: Sorter, byLine: Sorter, source: string, ops: seq<Op>)
    requires SortsRemoves(byStart) && SortsInserts(byLine) && !HasCrlf(source) && forall o :: o in ops ==> Plain(o)
    ensures ApplyPatch(byStart, byLine, Crlf(source), ops) == Crlf(ApplyPatch(byStart, byLine, source, ops)) <==>
            ops == [] || '\n' in source || LinesAfter(byStart, byLine, 1, ops) <= 1
  {
    hide Split, Join, Crlf, Normalize, EditLines, SortsRemoves, SortsInserts, LinesAfter, Plain;
    CrlfCommutes(byStart, byLine, source, ops);
    if ops != [] && '\n' !in source {
      SplitOneLine(source);
      var edited := EditLines(byStart, byLine, [source], ops);
      EditCounts(byStart, byLine, [source], ops);
      EditKeepsLines(byStart, byLine, [source], ops);
      JoinBreaks(edited);
    }
  }

  // ----- When an insertion appends -----

  lemma OneInsert(byStart: Sorter, byLine: Sorter, lines: seq<Line>, op: Op)
    requires SortsRemoves(byStart) && SortsInserts(byLine) && op.Insert?
    ensures EditLines(byStart, byLine, lines, [op]) == ApplyInsert(lines, op)
  {
    OnlyInserts(byStart, byLine, lines, [op]);
    var sorted := byLine([op]);
    assert multiset(sorted) == multiset([op]);
    assert |sorted| == |multiset(sorted)| == 1;
    assert sorted[0] in multiset([op]);
    assert sorted == [op] && sorted[1..] == [];
  }

  /** An insertion outside the text, which core/models/patch.go:18-20 says appends, appends exactly when it is just
      past the last line or has nothing to insert. */
  lemma OutsideAppendsExactly(byStart: Sorter, byLine: Sorter, lines: seq<Line>, b: int, ls: seq<Line>)
    requires SortsRemoves(byStart) && SortsInserts(byLine) && (b < 1 || b > |lines|)
    ensures EditLines(byStart, byLine, lines, [Insert(b, ls)]) == lines + ls <==> b == |lines| + 1 || ls == []
  {
    hide EditLines, SortsRemoves, SortsInserts;
    OneInsert(byStart, byLine, lines, Insert(b, ls));
    if b == |lines| + 1 {
      assert lines[..|lines|] == lines && lines[|lines|..] == [];
    } else {
      assert |lines + ls| == |lines| + |ls|;
    }
  }

  /** Line 0 never appends: the line is dropped. */
  lemma InsertAtZeroIsDropped(byStart: Sorter, byLine: Sorter, lines: seq<Line>, line: Line)
    requires SortsRemoves(byStart) && SortsInserts(byLine)
    ensures EditLines(byStart, byLine, lines, [Insert(0, [line])]) == lines != lines + [line]
  {
    OneInsert(byStart, byLine, lines, Insert(0, [line]));
    assert |lines + [line]| == |lines| + 1;
  }
}
