/**
  Applying line-level patches to source text (core/analyzer/autofix.go, `ApplyPatch`): removals and
  insertions bottom-up, CRLF sources normalised and restored.
 */
module SourcePatch {

  type Line = string

  datatype Op =
    | Insert(beforeLine: int, lines: seq<Line>)
    | Wrap(startLine: int, endLine: int, header: string, footer: string, indentDelta: int)
    | Replace(startLine: int, search: string, replacement: string, property: string)
    | Append(startLine: int, lines: seq<Line>)
    | Remove(startLine: int, endLine: int)
    | Unknown

  /** An unstable library sort: any deterministic choice among the sorted orders. */
  type Sorter = seq<Op> -> seq<Op>

  // ----- Text -----

  function Split(s: string): (lines: seq<Line>)
    ensures |lines| > 0
  {
    if s == [] then [""]
    else
      var rest := Split(s[1..]);
      if s[0] == '\n' then [""] + rest else [[s[0]] + rest[0]] + rest[1..]
  }

  function Join(lines: seq<Line>): string {
    if lines == [] then "" else if |lines| == 1 then lines[0] else lines[0] + "\n" + Join(lines[1..])
  }

  /** Replaces every line feed by CR LF. */
  function Crlf(s: string): string {
    if s == [] then [] else (if s[0] == '\n' then "\r\n" else [s[0]]) + Crlf(s[1..])
  }

  /** Replaces every CR LF by a line feed. */
  function Normalize(s: string): string
    decreases |s|
  {
    if s == [] then []
    else if s[0] == '\r' && |s| > 1 && s[1] == '\n' then "\n" + Normalize(s[2..])
    else [s[0]] + Normalize(s[1..])
  }

  predicate HasCrlf(s: string) {
    exists i :: 0 < i < |s| && s[i - 1] == '\r' && s[i] == '\n'
  }

  lemma JoinFirst(c: char, lines: seq<Line>)
    requires lines != []
    ensures Join([[c] + lines[0]] + lines[1..]) == [c] + Join(lines)
  {
    var more := [[c] + lines[0]] + lines[1..];
    assert more[1..] == lines[1..];
    if |lines| > 1 {
      assert ([c] + lines[0]) + "\n" + Join(lines[1..]) == [c] + (lines[0] + "\n" + Join(lines[1..]));
    }
  }

  lemma {:induction false} JoinSplit(s: string)
    ensures Join(Split(s)) == s
  {
    if s != [] {
      var rest := Split(s[1..]);
      JoinSplit(s[1..]);
      if s[0] == '\n' {
        assert ([""] + rest)[1..] == rest;
      } else {
        JoinFirst(s[0], rest);
      }
    }
  }

  lemma {:induction false} NormalizeCrlf(s: string)
    ensures Normalize(Crlf(s)) == s
  {
    if s != [] {
      NormalizeCrlf(s[1..]);
      var c := Crlf(s);
      if s[0] == '\n' {
        assert c[2..] == Crlf(s[1..]);
      } else {
        assert c[1..] == Crlf(s[1..]);
        CrlfStart(s[1..]);
      }
    }
  }

  /** A CRLF text never starts with a bare line feed. */
  lemma CrlfStart(s: string)
    ensures Crlf(s) != [] ==> Crlf(s)[0] != '\n'
  {}

  lemma {:induction false} CrlfOfMultiline(s: string)
    ensures HasCrlf(Crlf(s)) <==> '\n' in s
  {
    if s != [] {
      CrlfOfMultiline(s[1..]);
      var c, rest := Crlf(s), Crlf(s[1..]);
      if s[0] == '\n' {
        assert c[1 - 1] == '\r' && c[1] == '\n';
      } else {
        assert c == [s[0]] + rest;
        CrlfStart(s[1..]);
        if HasCrlf(rest) {
          var i :| 0 < i < |rest| && rest[i - 1] == '\r' && rest[i] == '\n';
          assert c[i + 1 - 1] == '\r' && c[i + 1] == '\n';
        }
        if HasCrlf(c) {
          var i :| 0 < i < |c| && c[i - 1] == '\r' && c[i] == '\n';
          assert i > 1;
          assert rest[i - 1 - 1] == '\r' && rest[i - 1] == '\n';
        }
      }
      assert '\n' in s <==> s[0] == '\n' || '\n' in s[1..];
    }
  }

  lemma {:induction false} CrlfLength(s: string)
    ensures |Crlf(s)| >= |s| && (|Crlf(s)| == |s| <==> '\n' !in s) && ('\n' !in s ==> Crlf(s) == s)
  {
    if s != [] {
      CrlfLength(s[1..]);
      assert s == [s[0]] + s[1..];
    }
  }

  // ----- One operation -----

  function Repeat(s: string, n: nat): string {
    if n == 0 then "" else s + Repeat(s, n - 1)
  }

  function Indent(lines: seq<Line>, pad: string): (r: seq<Line>)
    ensures |r| == |lines|
  {
    seq(|lines|, i requires 0 <= i < |lines| => pad + lines[i])
  }

  function Clamp(n: int, lo: nat, hi: nat): nat
    requires lo <= hi
  {
    if n < lo then lo else if n > hi then hi else n
  }

  function ApplyRemove(lines: seq<Line>, op: Op): seq<Line>
    requires op.Remove?
  {
    if op.startLine < 1 || op.startLine > |lines| then lines
    else
      var start := op.startLine - 1;
      lines[..start] + lines[Clamp(op.endLine, start, |lines|)..]
  }

  function ApplyWrap(lines: seq<Line>, op: Op): seq<Line>
    requires op.Wrap?
  {
    if op.startLine < 1 || op.startLine > |lines| then lines
    else
      var start := op.startLine - 1;
      var end := Clamp(op.endLine, start, |lines|);
      var pad := if op.indentDelta > 0 then Repeat("    ", op.indentDelta) else "";
      lines[..start] + (if op.header != "" then Split(op.header) else []) + Indent(lines[start..end], pad) +
      (if op.footer != "" then Split(op.footer) else []) + lines[end..]
  }

  predicate StartsWith(s: string, p: string) {
    |p| <= |s| && s[..|p|] == p
  }

  function ReplaceAll(s: string, old': string, new': string): string
    requires old' != ""
    decreases |s|
  {
    if s == [] then []
    else if StartsWith(s, old') then new' + ReplaceAll(s[|old'|..], old', new')
    else [s[0]] + ReplaceAll(s[1..], old', new')
  }

  /** The first place from `i` on where `line` has `key` at the start of a word; `|line|` if there is none. */
  function KeyAt(line: string, key: string, i: nat): nat
    requires i <= |line|
    decreases |line| - i
  {
    if i == |line| then i
    else if StartsWith(line[i..], key) && (i == 0 || line[i - 1] == ' ' || line[i - 1] == '\t') then i
    else KeyAt(line, key, i + 1)
  }

  function ReplaceFirst(s: string, old': string, new': string): string {
    if StartsWith(s, old') then new' + s[|old'|..] else if s == [] then s else [s[0]] + ReplaceFirst(s[1..], old', new')
  }

  function ReplaceInProperty(line: string, property: string, old': string, new': string): string {
    var key := property + ":";
    var at := KeyAt(line, key, 0);
    if at + |key| > |line| then line
    else line[..at + |key|] + ReplaceFirst(line[at + |key|..], old', new')
  }

  /** A multi-line search text falls back to its first line. */
  function FirstLine(s: string): string {
    Split(s)[0]
  }

  function ApplyReplace(lines: seq<Line>, op: Op): seq<Line>
    requires op.Replace?
  {
    var idx := op.startLine - 1;
    if idx < 0 || idx >= |lines| || FirstLine(op.search) == "" then lines
    else if op.property != ""
    then lines[idx := ReplaceInProperty(lines[idx], op.property, FirstLine(op.search), op.replacement)]
    else lines[idx := ReplaceAll(lines[idx], FirstLine(op.search), op.replacement)]
  }

  function ApplyAppend(lines: seq<Line>, op: Op): seq<Line>
    requires op.Append?
  {
    var idx := op.startLine - 1;
    if idx < 0 || idx >= |lines| || op.lines == [] then lines else lines[idx := lines[idx] + op.lines[0]]
  }

  function ApplyInsert(lines: seq<Line>, op: Op): seq<Line>
    requires op.Insert?
  {
    if op.beforeLine < 1 || op.beforeLine > |lines| + 1 then lines
    else lines[..op.beforeLine - 1] + op.lines + lines[op.beforeLine - 1..]
  }

  function ApplyOp(lines: seq<Line>, op: Op): seq<Line> {
    match op
    case Insert(_, _) => ApplyInsert(lines, op)
    case Wrap(_, _, _, _, _) => ApplyWrap(lines, op)
    case Replace(_, _, _, _) => ApplyReplace(lines, op)
    case Append(_, _) => ApplyAppend(lines, op)
    case Remove(_, _) => ApplyRemove(lines, op)
    case Unknown => lines
  }

  // ----- The whole patch -----

  function ApplyAll(lines: seq<Line>, ops: seq<Op>): seq<Line>
    decreases |ops|
  {
    if ops == [] then lines else ApplyAll(ApplyOp(lines, ops[0]), ops[1..])
  }

  function Filter(ops: seq<Op>, pick: Op -> bool): seq<Op> {
    if ops == [] then [] else (if pick(ops[0]) then [ops[0]] else []) + Filter(ops[1..], pick)
  }

  predicate IsRemove(op: Op) { op.Remove? }
  predicate IsWrap(op: Op) { op.Wrap? }
  predicate IsReplace(op: Op) { op.Replace? }
  predicate IsAppend(op: Op) { op.Append? }
  predicate IsInsert(op: Op) { op.Insert? }

  /** Removals first, then wraps, replacements, appends, and insertions last. */
  function EditLines(byStart: Sorter, byLine: Sorter, lines: seq<Line>, ops: seq<Op>): seq<Line> {
    var removed := ApplyAll(lines, byStart(Filter(ops, IsRemove)));
    var wrapped := ApplyAll(removed, Filter(ops, IsWrap));
    var replaced := ApplyAll(wrapped, Filter(ops, IsReplace));
    var appended := ApplyAll(replaced, Filter(ops, IsAppend));
    ApplyAll(appended, byLine(Filter(ops, IsInsert)))
  }

  function ApplyPatch(byStart: Sorter, byLine: Sorter, source: string, ops: seq<Op>): string {
    if ops == [] then source
    else
      var crlf := HasCrlf(source);
      var out := Join(EditLines(byStart, byLine, Split(if crlf then Normalize(source) else source), ops));
      if crlf then Crlf(out) else out
  }

  /** One pass over the operations, applying those of one kind. */
  method ApplyPass(lines: seq<Line>, ops: seq<Op>, pick: Op -> bool) returns (r: seq<Line>)
    ensures r == ApplyAll(lines, Filter(ops, pick))
  {
    r := lines;
    for i := 0 to |ops|
      invariant ApplyAll(r, Filter(ops[i..], pick)) == ApplyAll(lines, Filter(ops, pick))
    {
      assert ops[i..][1..] == ops[i + 1..];
      var rest := Filter(ops[i + 1..], pick);
      if pick(ops[i]) {
        assert ([ops[i]] + rest)[1..] == rest;
        r := ApplyOp(r, ops[i]);
      } else {
        assert [] + rest == rest;
      }
    }
    assert ops[|ops|..] == [];
  }

  method PatchSource(byStart: Sorter, byLine: Sorter, source: string, ops: seq<Op>) returns (out: string)
    ensures out == ApplyPatch(byStart, byLine, source, ops)
  {
    hide ApplyAll, Split, Join, Normalize, Crlf;
    if ops == [] { return source; }
    var crlf := HasCrlf(source);
    var lines := Split(if crlf then Normalize(source) else source);
    lines := ApplySorted(lines, byStart(Filter(ops, IsRemove)));
    lines := ApplyPass(lines, ops, IsWrap);
    lines := ApplyPass(lines, ops, IsReplace);
    lines := ApplyPass(lines, ops, IsAppend);
    lines := ApplySorted(lines, byLine(Filter(ops, IsInsert)));
    out := Join(lines);
    if crlf { out := Crlf(out); }
  }

  method ApplySorted(lines: seq<Line>, ops: seq<Op>) returns (r: seq<Line>)
    ensures r == ApplyAll(lines, ops)
  {
    r := lines;
    for i := 0 to |ops|
      invariant ApplyAll(r, ops[i..]) == ApplyAll(lines, ops)
    {
      assert ops[i..][1..] == ops[i + 1..];
      r := ApplyOp(r, ops[i]);
    }
    assert ops[|ops|..] == [];
  }

  // ----- CRLF sources -----

  /** For a source without CR LF of its own, patching its CRLF form is the CRLF form of patching it,
      exactly when the source has a line break already or the patch leaves it without one. */
  lemma CrlfCommutes(byStart: Sorter, byLine: Sorter, source: string, ops: seq<Op>)
    requires !HasCrlf(source)
    ensures ApplyPatch(byStart, byLine, Crlf(source), ops) == Crlf(ApplyPatch(byStart, byLine, source, ops)) <==>
            ops == [] || '\n' in source || '\n' !in ApplyPatch(byStart, byLine, source, ops)
  {
    hide EditLines, Split, Join;
    NormalizeCrlf(source);
    CrlfOfMultiline(source);
    CrlfLength(source);
    CrlfLength(ApplyPatch(byStart, byLine, source, ops));
  }

  /** Any one-line source loses the CRLF convention when a line is inserted: nothing in it tells it. */
  lemma CrlfLostOnOneLine(byStart: Sorter, byLine: Sorter, source: string, line: Line)
    requires SortsRemoves(byStart) && SortsInserts(byLine) && '\n' !in source
    ensures var ops := [Insert(1, [line])];
            ApplyPatch(byStart, byLine, Crlf(source), ops) != Crlf(ApplyPatch(byStart, byLine, source, ops))
  {
    var ops := [Insert(1, [line])];
    SplitOneLine(source);
    InsertsOnly(byStart, byLine, [source], ops);
    TwoLines(source, line);
    hide EditLines, SortsRemoves, SortsInserts, Woven, Split;
    var lines := [line, source];
    assert lines[1..] == [source];
    assert Join(lines)[|line|] == '\n';
    CrlfCommutes(byStart, byLine, source, ops);
  }

  lemma {:induction false} SplitOneLine(s: string)
    requires '\n' !in s
    ensures Split(s) == [s]
  {
    if s != [] {
      assert s == [s[0]] + s[1..];
      SplitOneLine(s[1..]);
    }
  }

  lemma TwoLines(source: string, line: Line)
    ensures var ops := [Insert(1, [line])]; DistinctTargets(ops) && Woven([source], ops, 1) == [line, source]
  {
    var op := Insert(1, [line]);
    AtCons(op, [], 1);
    AtCons(op, [], 2);
    assert [op] + [] == [op];
    assert Woven([source], [op], 0) == [line];
  }

  // ----- Sorting -----

  ghost predicate SortsRemoves(f: Sorter) {
    forall ops: seq<Op> :: (forall i :: 0 <= i < |ops| ==> ops[i].Remove?) ==>
      multiset(f(ops)) == multiset(ops) && StartsDescend(f(ops))
  }

  predicate StartsDescend(ops: seq<Op>) {
    && (forall i :: 0 <= i < |ops| ==> ops[i].Remove?)
    && (forall i, j :: 0 <= i < j < |ops| ==> ops[i].startLine >= ops[j].startLine)
  }

  ghost predicate SortsInserts(f: Sorter) {
    forall ops: seq<Op> :: (forall i :: 0 <= i < |ops| ==> ops[i].Insert?) ==>
      multiset(f(ops)) == multiset(ops) && TargetsDescend(f(ops))
  }

  predicate TargetsDescend(ops: seq<Op>) {
    && (forall i :: 0 <= i < |ops| ==> ops[i].Insert?)
    && (forall i, j :: 0 <= i < j < |ops| ==> ops[i].beforeLine >= ops[j].beforeLine)
  }

  lemma {:induction false} FilterAll(ops: seq<Op>, pick: Op -> bool)
    ensures (forall i :: 0 <= i < |ops| ==> pick(ops[i])) ==> Filter(ops, pick) == ops
    ensures (forall i :: 0 <= i < |ops| ==> !pick(ops[i])) ==> Filter(ops, pick) == []
  {
    if ops != [] { FilterAll(ops[1..], pick); }
  }

  // ----- Insertions happen all at once -----

  /** What is inserted before line `t`. */
  function At(ops: seq<Op>, t: int): seq<Line>
    requires forall i :: 0 <= i < |ops| ==> ops[i].Insert?
  {
    if ops == [] then [] else if ops[0].beforeLine == t then ops[0].lines else At(ops[1..], t)
  }

  /** The first `n` lines, each preceded by what is inserted before it, and what comes before the next one. */
  function Woven(lines: seq<Line>, ops: seq<Op>, n: nat): seq<Line>
    requires n <= |lines| && forall i :: 0 <= i < |ops| ==> ops[i].Insert?
  {
    if n == 0 then At(ops, 1) else Woven(lines, ops, n - 1) + [lines[n - 1]] + At(ops, n + 1)
  }

  predicate DistinctTargets(ops: seq<Op>) {
    && (forall i :: 0 <= i < |ops| ==> ops[i].Insert?)
    && (forall i, j :: 0 <= i < j < |ops| ==> ops[i].beforeLine != ops[j].beforeLine)
  }

  lemma {:induction false} AtFound(ops: seq<Op>, t: int)
    requires DistinctTargets(ops)
    ensures forall op :: op in ops && op.beforeLine == t ==> At(ops, t) == op.lines
    ensures (forall op :: op in ops ==> op.beforeLine != t) ==> At(ops, t) == []
  {
    if ops != [] {
      AtFound(ops[1..], t);
      assert ops == [ops[0]] + ops[1..];
    }
  }

  lemma AtPermuted(ops: seq<Op>, sorted: seq<Op>, t: int)
    requires DistinctTargets(ops) && DistinctTargets(sorted) && multiset(ops) == multiset(sorted)
    ensures At(ops, t) == At(sorted, t)
  {
    AtFound(ops, t);
    AtFound(sorted, t);
    assert forall op :: op in ops <==> op in multiset(ops);
    assert forall op :: op in sorted <==> op in multiset(sorted);
  }

  lemma {:induction false} WovenFrame(lines: seq<Line>, ops: seq<Op>, other: seq<Line>, ops': seq<Op>, n: nat)
    requires n <= |lines| && n <= |other| && lines[..n] == other[..n]
    requires (forall i :: 0 <= i < |ops| ==> ops[i].Insert?) && (forall i :: 0 <= i < |ops'| ==> ops'[i].Insert?)
    requires forall t :: 1 <= t <= n + 1 ==> At(ops, t) == At(ops', t)
    ensures Woven(lines, ops, n) == Woven(other, ops', n)
  {
    if n > 0 {
      assert lines[..n - 1] == lines[..n][..n - 1] && other[..n - 1] == other[..n][..n - 1];
      assert lines[n - 1] == lines[..n][n - 1] && other[n - 1] == other[..n][n - 1];
      WovenFrame(lines, ops, other, ops', n - 1);
    }
  }

  /** Past the last target the lines follow unchanged. */
  lemma {:induction false} WovenTail(lines: seq<Line>, ops: seq<Op>, m: nat, n: nat)
    requires m <= n <= |lines| && forall i :: 0 <= i < |ops| ==> ops[i].Insert?
    requires forall t :: m + 1 < t <= n + 1 ==> At(ops, t) == []
    ensures Woven(lines, ops, n) == Woven(lines, ops, m) + lines[m..n]
    decreases n
  {
    if m < n {
      WovenTail(lines, ops, m, n - 1);
      assert lines[m..n] == lines[m..n - 1] + [lines[n - 1]];
    }
  }

  lemma {:induction false} AtAbove(ops: seq<Op>, t: int)
    requires (forall i :: 0 <= i < |ops| ==> ops[i].Insert?) && forall i :: 0 <= i < |ops| ==> ops[i].beforeLine < t
    ensures At(ops, t) == []
  {
    if ops != [] { AtAbove(ops[1..], t); }
  }

  /** Inserting bottom-up at distinct targets weaves everything in at the original line numbers. */
  lemma {:induction false} InsertBottomUp(lines: seq<Line>, ops: seq<Op>)
    requires TargetsDescend(ops) && DistinctTargets(ops)
    ensures ApplyAll(lines, ops) == Woven(lines, ops, |lines|)
    decreases |ops|
  {
    if ops == [] {
      WovenTail(lines, ops, 0, |lines|);
    } else {
      var op, rest, b := ops[0], ops[1..], ops[0].beforeLine;
      assert TargetsDescend(rest) && DistinctTargets(rest);
      assert ops == [op] + rest;
      forall t | t >= b ensures At(rest, t) == [] {
        assert forall i :: 0 <= i < |rest| ==> rest[i].beforeLine < b;
        AtAbove(rest, t);
      }
      hide At, Woven, ApplyInsert;
      InsertBottomUp(ApplyInsert(lines, op), rest);
      InsertNext(lines, op, rest);
    }
  }

  /** The first of the operations, in range or not. */
  lemma InsertNext(lines: seq<Line>, op: Op, rest: seq<Op>)
    requires op.Insert? && forall i :: 0 <= i < |rest| ==> rest[i].Insert?
    requires forall t :: t >= op.beforeLine ==> At(rest, t) == []
    ensures Woven(ApplyInsert(lines, op), rest, |ApplyInsert(lines, op)|) == Woven(lines, [op] + rest, |lines|)
  {
    hide At, Woven;
    if op.beforeLine < 1 || op.beforeLine > |lines| + 1 {
      forall t | 1 <= t <= |lines| + 1 ensures At([op] + rest, t) == At(rest, t) { AtCons(op, rest, t); }
      WovenFrame(lines, [op] + rest, lines, rest, |lines|);
    } else {
      InsertOne(lines, op, rest);
    }
  }

  lemma InsertedParts(lines: seq<Line>, op: Op)
    requires op.Insert? && 1 <= op.beforeLine <= |lines| + 1
    ensures var next, m := ApplyInsert(lines, op), op.beforeLine - 1;
            m <= |next| && next[..m] == lines[..m] && next[m..|next|] == op.lines + lines[m..|lines|]
  {
  }

  lemma InsertOne(lines: seq<Line>, op: Op, rest: seq<Op>)
    requires op.Insert? && 1 <= op.beforeLine <= |lines| + 1 && forall i :: 0 <= i < |rest| ==> rest[i].Insert?
    requires forall t :: t >= op.beforeLine ==> At(rest, t) == []
    ensures Woven(ApplyInsert(lines, op), rest, |ApplyInsert(lines, op)|) == Woven(lines, [op] + rest, |lines|)
  {
    hide At, Woven, ApplyInsert;
    var ops, next, m := [op] + rest, ApplyInsert(lines, op), op.beforeLine - 1;
    InsertedParts(lines, op);
    forall t ensures At(ops, t) == if t == op.beforeLine then op.lines else At(rest, t) { AtCons(op, rest, t); }
    WovenAtTarget(lines, ops, rest, m, op.lines);
    WovenTail(next, rest, m, |next|);
    WovenTail(lines, ops, m, |lines|);
    WovenFrame(next, rest, lines, rest, m);
    Reassociate(Woven(lines, rest, m), op.lines, lines[m..|lines|]);
  }

  lemma Reassociate(a: seq<Line>, b: seq<Line>, c: seq<Line>)
    ensures a + (b + c) == (a + b) + c
  {
  }

  lemma AtCons(op: Op, rest: seq<Op>, t: int)
    requires op.Insert? && forall i :: 0 <= i < |rest| ==> rest[i].Insert?
    ensures At([op] + rest, t) == if t == op.beforeLine then op.lines else At(rest, t)
  {
    assert ([op] + rest)[1..] == rest;
  }

  lemma WovenAtTarget(lines: seq<Line>, ops: seq<Op>, rest: seq<Op>, m: nat, inserted: seq<Line>)
    requires m <= |lines| && (forall i :: 0 <= i < |ops| ==> ops[i].Insert?) &&
             (forall i :: 0 <= i < |rest| ==> rest[i].Insert?)
    requires forall t :: t <= m ==> At(ops, t) == At(rest, t)
    requires At(ops, m + 1) == inserted && At(rest, m + 1) == []
    ensures Woven(lines, ops, m) == Woven(lines, rest, m) + inserted
  {
    hide At;
    if m > 0 { WovenFrame(lines, ops, lines, rest, m - 1); }
  }

  lemma OnlyInserts(byStart: Sorter, byLine: Sorter, lines: seq<Line>, ops: seq<Op>)
    requires SortsRemoves(byStart) && forall i :: 0 <= i < |ops| ==> ops[i].Insert?
    ensures EditLines(byStart, byLine, lines, ops) == ApplyAll(lines, byLine(ops))
  {
    FilterAll(ops, IsRemove);
    FilterAll(ops, IsWrap);
    FilterAll(ops, IsReplace);
    FilterAll(ops, IsAppend);
    FilterAll(ops, IsInsert);
    var none: seq<Op> := [];
    assert multiset(byStart(none)) == multiset(none);
    assert |multiset(byStart(none))| == |byStart(none)|;
  }

  /** A patch of insertions at distinct lines inserts all of them at the original line numbers. */
  lemma InsertsOnly(byStart: Sorter, byLine: Sorter, lines: seq<Line>, ops: seq<Op>)
    requires SortsRemoves(byStart) && SortsInserts(byLine) && DistinctTargets(ops)
    ensures EditLines(byStart, byLine, lines, ops) == Woven(lines, ops, |lines|)
  {
    OnlyInserts(byStart, byLine, lines, ops);
    hide EditLines, SortsRemoves, At, Woven, ApplyAll;
    var sorted := byLine(ops);
    SortedStillDistinct(ops, sorted);
    InsertBottomUp(lines, sorted);
    forall t ensures At(ops, t) == At(sorted, t) { AtPermuted(ops, sorted, t); }
    WovenFrame(lines, sorted, lines, ops, |lines|);
  }

  lemma {:induction false} TargetsOnce(ops: seq<Op>, x: Op)
    requires DistinctTargets(ops)
    ensures multiset(ops)[x] <= 1
  {
    if ops != [] {
      TargetsOnce(ops[1..], x);
      assert ops == [ops[0]] + ops[1..];
      if x == ops[0] { assert x !in ops[1..]; }
    }
  }

  lemma CountsTwice(s: seq<Op>, i: nat, j: nat)
    requires i < j < |s| && s[i] == s[j]
    ensures multiset(s)[s[i]] >= 2
  {
    assert s == s[..j] + ([s[j]] + s[j + 1..]);
    assert s[j] in s[..j] by { assert s[..j][i] == s[j]; }
  }

  lemma SortedStillDistinct(ops: seq<Op>, sorted: seq<Op>)
    requires DistinctTargets(ops) && multiset(sorted) == multiset(ops)
    requires forall i :: 0 <= i < |sorted| ==> sorted[i].Insert?
    ensures DistinctTargets(sorted)
  {
    forall i, j | 0 <= i < j < |sorted| ensures sorted[i].beforeLine != sorted[j].beforeLine {
      TargetsOnce(ops, sorted[i]);
      if sorted[i] == sorted[j] { CountsTwice(sorted, i, j); }
      assert sorted[i] in multiset(ops) && sorted[j] in multiset(ops);
    }
  }

  // ----- Removals keep exactly the uncovered lines -----

  predicate Covers(op: Op, line: int) {
    op.Remove? && 1 <= op.startLine <= line <= op.endLine
  }

  predicate Covered(ops: seq<Op>, line: int) {
    exists i :: 0 <= i < |ops| && Covers(ops[i], line)
  }

  /** The uncovered ones of the first `n` lines. */
  function Kept(lines: seq<Line>, ops: seq<Op>, n: nat): seq<Line>
    requires n <= |lines|
  {
    if n == 0 then [] else Kept(lines, ops, n - 1) + if Covered(ops, n) then [] else [lines[n - 1]]
  }

  /** No line is covered twice. */
  ghost predicate DisjointRanges(ops: seq<Op>) {
    && (forall i :: 0 <= i < |ops| ==> ops[i].Remove?)
    && (forall i, j, line :: 0 <= i < j < |ops| && Covers(ops[i], line) ==> !Covers(ops[j], line))
  }

  lemma {:induction false} KeptFrame(lines: seq<Line>, ops: seq<Op>, other: seq<Line>, ops': seq<Op>, n: nat)
    requires n <= |lines| && n <= |other| && lines[..n] == other[..n]
    requires forall i :: 1 <= i <= n ==> (Covered(ops, i) <==> Covered(ops', i))
    ensures Kept(lines, ops, n) == Kept(other, ops', n)
  {
    hide Covered;
    if n > 0 {
      assert lines[..n - 1] == lines[..n][..n - 1] && other[..n - 1] == other[..n][..n - 1];
      assert lines[n - 1] == lines[..n][n - 1] && other[n - 1] == other[..n][n - 1];
      KeptFrame(lines, ops, other, ops', n - 1);
    }
  }

  lemma {:induction false} KeptTail(lines: seq<Line>, ops: seq<Op>, m: nat, n: nat)
    requires m <= n <= |lines|
    ensures (forall i :: m < i <= n ==> !Covered(ops, i)) ==> Kept(lines, ops, n) == Kept(lines, ops, m) + lines[m..n]
    ensures (forall i :: m < i <= n ==> Covered(ops, i)) ==> Kept(lines, ops, n) == Kept(lines, ops, m)
    decreases n
  {
    hide Covered;
    if m < n {
      KeptTail(lines, ops, m, n - 1);
      assert lines[m..n] == lines[m..n - 1] + [lines[n - 1]];
    }
  }

  /** Removing disjoint ranges bottom-up leaves the uncovered lines. */
  lemma {:induction false} RemoveBottomUp(lines: seq<Line>, ops: seq<Op>)
    requires StartsDescend(ops) && DisjointRanges(ops)
    ensures ApplyAll(lines, ops) == Kept(lines, ops, |lines|)
    decreases |ops|
  {
    if ops == [] {
      KeptTail(lines, ops, 0, |lines|);
    } else {
      var op, rest := ops[0], ops[1..];
      RemoveBottomUp(ApplyRemove(lines, op), rest);
      forall i ensures Covered(ops, i) <==> Covers(op, i) || Covered(rest, i) { CoveredCons(ops, i); }
      if op.startLine < 1 || op.startLine > |lines| || op.endLine < op.startLine {
        assert ApplyRemove(lines, op) == lines;
        KeptFrame(lines, ops, lines, rest, |lines|);
      } else {
        forall i | i >= op.startLine ensures !Covered(rest, i) { NothingBelow(ops, i); }
        RemoveOne(lines, op, ops, rest);
      }
    }
  }

  lemma CoveredCons(ops: seq<Op>, i: int)
    requires ops != []
    ensures Covered(ops, i) <==> Covers(ops[0], i) || Covered(ops[1..], i)
  {
    hide Covers;
    if Covered(ops[1..], i) {
      var k :| 0 <= k < |ops[1..]| && Covers(ops[1..][k], i);
      assert Covers(ops[k + 1], i);
    }
    if Covered(ops, i) && !Covers(ops[0], i) {
      var k :| 0 <= k < |ops| && Covers(ops[k], i);
      assert Covers(ops[1..][k - 1], i);
    }
  }

  /** Later operations start no further down, so they end before the first one's range. */
  lemma NothingBelow(ops: seq<Op>, i: int)
    requires StartsDescend(ops) && DisjointRanges(ops) && ops != [] && 1 <= ops[0].startLine <= ops[0].endLine &&
             i >= ops[0].startLine
    ensures !Covered(ops[1..], i)
  {
    forall k | 0 <= k < |ops[1..]| ensures !Covers(ops[1..][k], i) {
      assert ops[1..][k] == ops[k + 1];
      assert Covers(ops[0], ops[0].startLine);
    }
  }

  lemma RemoveOne(lines: seq<Line>, op: Op, ops: seq<Op>, rest: seq<Op>)
    requires op.Remove? && 1 <= op.startLine <= |lines| && op.startLine <= op.endLine
    requires forall i :: Covered(ops, i) <==> Covers(op, i) || Covered(rest, i)
    requires forall i :: i >= op.startLine ==> !Covered(rest, i)
    ensures Kept(ApplyRemove(lines, op), rest, |ApplyRemove(lines, op)|) == Kept(lines, ops, |lines|)
  {
    var m, e := op.startLine - 1, Clamp(op.endLine, op.startLine - 1, |lines|);
    var next := ApplyRemove(lines, op);
    hide Covered;
    KeptTail(next, rest, m, |next|);
    KeptTail(lines, ops, m, e);
    KeptTail(lines, ops, e, |lines|);
    KeptFrame(next, rest, lines, ops, m);
    assert next[..m] == lines[..m] && next[m..] == lines[e..];
  }

  lemma OnlyRemoves(byStart: Sorter, byLine: Sorter, lines: seq<Line>, ops: seq<Op>)
    requires SortsInserts(byLine) && forall i :: 0 <= i < |ops| ==> ops[i].Remove?
    ensures EditLines(byStart, byLine, lines, ops) == ApplyAll(lines, byStart(ops))
  {
    FilterAll(ops, IsRemove);
    FilterAll(ops, IsWrap);
    FilterAll(ops, IsReplace);
    FilterAll(ops, IsAppend);
    FilterAll(ops, IsInsert);
    var none: seq<Op> := [];
    assert multiset(byLine(none)) == multiset(none);
    assert |multiset(byLine(none))| == |byLine(none)|;
  }

  /** A patch of removals with disjoint ranges keeps exactly the lines none of them covers. */
  lemma RemovesOnly(byStart: Sorter, byLine: Sorter, lines: seq<Line>, ops: seq<Op>)
    requires SortsRemoves(byStart) && SortsInserts(byLine) && DisjointRanges(ops)
    ensures EditLines(byStart, byLine, lines, ops) == Kept(lines, ops, |lines|)
  {
    OnlyRemoves(byStart, byLine, lines, ops);
    hide EditLines, SortsInserts, Kept, ApplyAll;
    var sorted := byStart(ops);
    SortedStillDisjoint(ops, sorted);
    RemoveBottomUp(lines, sorted);
    forall i ensures Covered(ops, i) <==> Covered(sorted, i) { CoveredPermuted(ops, sorted, i); }
    KeptFrame(lines, sorted, lines, ops, |lines|);
  }

  lemma CoveredPermuted(ops: seq<Op>, sorted: seq<Op>, line: int)
    requires multiset(ops) == multiset(sorted)
    ensures Covered(ops, line) <==> Covered(sorted, line)
  {
    hide Covers;
    if Covered(ops, line) {
      var k :| 0 <= k < |ops| && Covers(ops[k], line);
      assert ops[k] in multiset(sorted);
    }
    if Covered(sorted, line) {
      var k :| 0 <= k < |sorted| && Covers(sorted[k], line);
      assert sorted[k] in multiset(ops);
    }
  }

  lemma {:induction false} CoverOnce(ops: seq<Op>, x: Op, line: int)
    requires DisjointRanges(ops) && Covers(x, line)
    ensures multiset(ops)[x] <= 1
  {
    hide Covers;
    if ops != [] {
      CoverOnce(ops[1..], x, line);
      assert ops == [ops[0]] + ops[1..];
      if x == ops[0] { assert x !in ops[1..]; }
    }
  }

  lemma SortedStillDisjoint(ops: seq<Op>, sorted: seq<Op>)
    requires DisjointRanges(ops) && multiset(sorted) == multiset(ops)
    requires forall i :: 0 <= i < |sorted| ==> sorted[i].Remove?
    ensures DisjointRanges(sorted)
  {
    hide Covers;
    forall i, j, line | 0 <= i < j < |sorted| && Covers(sorted[i], line) ensures !Covers(sorted[j], line) {
      CoverOnce(ops, sorted[i], line);
      if sorted[i] == sorted[j] { CountsTwice(sorted, i, j); }
      assert sorted[i] in multiset(ops) && sorted[j] in multiset(ops);
    }
  }
}
