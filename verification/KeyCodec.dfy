/**
  Keys of declared caches (core/cache/spec.go, core/cache/part.go): parts are matched against the
  declared kinds and written as tagged, length-prefixed components. Strings are byte strings; a `char`
  stands for one byte.
 */
module KeyCodec {
  import opened Options

  datatype Kind = KindNone | KindTenant | KindRuleProfile | KindContent | KindResource | KindVersion | KindParam

  /** The zero Part, built from empty input, has no kind. */
  datatype Part = Part(kind: Kind, name: string, val: string) {
    predicate IsZero() { kind.KindNone? }
  }

  const ZERO_PART := Part(KindNone, "", "")

  function KindCode(k: Kind): char {
    match k
    case KindTenant => 't'
    case KindRuleProfile => 'p'
    case KindContent => 'c'
    case KindResource => 'r'
    case KindVersion => 'v'
    case KindParam => 'a'
    case KindNone => '\0'
  }

  function KindOfCode(c: char): Kind {
    if c == 't' then KindTenant else if c == 'p' then KindRuleProfile else if c == 'c' then KindContent
    else if c == 'r' then KindResource else if c == 'v' then KindVersion else if c == 'a' then KindParam
    else KindNone
  }

  // ----- Decimal numbers -----

  predicate IsDigit(c: char) { '0' <= c <= '9' }

  function DigitChar(d: nat): char
    requires d < 10
  {
    '0' + d as char
  }

  function Itoa(n: nat): string {
    if n < 10 then [DigitChar(n)] else Itoa(n / 10) + [DigitChar(n % 10)]
  }

  /** The number a string of decimal digits stands for. */
  function Digits(s: string): Option<nat> {
    if s == [] then Some(0)
    else
      var front, c := Digits(s[..|s| - 1]), s[|s| - 1];
      if front.Some? && IsDigit(c) then Some(10 * front.value + (c - '0') as nat) else None
  }

  /** `strconv.Atoi` without its range limit: an optional sign and at least one digit. */
  function Atoi(s: string): Option<int> {
    if s == [] then None
    else
      var signed := s[0] == '-' || s[0] == '+';
      var digits := if signed then s[1..] else s;
      if digits == [] || Digits(digits).None? then None
      else
        var n: int := Digits(digits).value;
        Some(if s[0] == '-' then -n else n)
  }

  lemma {:induction false} ItoaDigits(n: nat)
    ensures Itoa(n) != [] && (forall i :: 0 <= i < |Itoa(n)| ==> IsDigit(Itoa(n)[i])) && Digits(Itoa(n)) == Some(n)
  {
    if n < 10 {
      assert Itoa(n)[..0] == [];
    } else {
      ItoaDigits(n / 10);
      assert Itoa(n)[..|Itoa(n)| - 1] == Itoa(n / 10);
    }
  }

  lemma AtoiItoa(n: nat)
    ensures Atoi(Itoa(n)) == Some(n)
  {
    ItoaDigits(n);
    assert IsDigit(Itoa(n)[0]);
  }

  /** `decimalLen` counts the digits `Itoa` writes. */
  method DecimalLen(n: nat) returns (d: nat)
    ensures d == |Itoa(n)|
  {
    var m := n;
    d := 1;
    while m >= 10
      invariant |Itoa(n)| == d - 1 + |Itoa(m)|
    {
      m := m / 10;
      d := d + 1;
    }
  }

  // ----- Length prefixes -----

  function LenPrefixed(s: string): string {
    Itoa(|s|) + ":" + s
  }

  /** The position of the first colon, or the length if there is none. */
  function ColonAt(s: string): nat {
    if s == [] || s[0] == ':' then 0 else 1 + ColonAt(s[1..])
  }

  lemma {:induction false} ColonIsFirst(s: string)
    ensures ColonAt(s) <= |s| && (ColonAt(s) < |s| ==> s[ColonAt(s)] == ':')
  {
    if s != [] && s[0] != ':' { ColonIsFirst(s[1..]); }
  }

  lemma {:induction false} ColonAfter(head: string, tail: string)
    requires forall i :: 0 <= i < |head| ==> head[i] != ':'
    ensures ColonAt(head + ":" + tail) == |head|
  {
    var s := head + ":" + tail;
    if head != [] {
      assert s[1..] == head[1..] + ":" + tail;
      ColonAfter(head[1..], tail);
    }
  }

  /** Reads one length-prefixed string from the front; the prefix must be written canonically. */
  function CutPrefixed(enc: string): Option<(string, string)> {
    var k := ColonAt(enc);
    if k >= |enc| then None
    else
      var head, tail := enc[..k], enc[k + 1..];
      var n := Atoi(head);
      if n.None? || n.value < 0 || n.value > |tail| || Itoa(n.value) != head then None
      else Some((tail[..n.value], tail[n.value..]))
  }

  lemma CutInverts(s: string, rest: string)
    ensures CutPrefixed(LenPrefixed(s) + rest) == Some((s, rest))
  {
    var head, enc := Itoa(|s|), LenPrefixed(s) + rest;
    ItoaDigits(|s|);
    AtoiItoa(|s|);
    assert enc == head + ":" + (s + rest);
    ColonAfter(head, s + rest);
    assert enc[..|head|] == head && enc[|head| + 1..] == s + rest;
  }

  lemma CutIsCanonical(enc: string)
    ensures var c := CutPrefixed(enc); c.Some? ==> enc == LenPrefixed(c.value.0) + c.value.1 && |c.value.1| < |enc|
  {
    ColonIsFirst(enc);
    var k := ColonAt(enc);
    if k < |enc| {
      assert enc == enc[..k] + ":" + enc[k + 1..];
    }
  }

  // ----- Components -----

  function EncodePart(p: Part): string {
    [KindCode(p.kind)] + LenPrefixed(p.name) + LenPrefixed(p.val)
  }

  function EncodeParts(ps: seq<Part>): string {
    if ps == [] then "" else EncodePart(ps[0]) + EncodeParts(ps[1..])
  }

  /** The first component and what follows it. */
  function CutPart(enc: string): (r: Option<(Part, string)>)
    requires enc != []
  {
    var kind := KindOfCode(enc[0]);
    if kind.KindNone? then None
    else
      var name := CutPrefixed(enc[1..]);
      if name.None? then None
      else
        var val := CutPrefixed(name.value.1);
        if val.None? then None
        else Some((Part(kind, name.value.0, val.value.0), val.value.1))
  }

  lemma CutPartShrinks(enc: string)
    requires enc != [] && CutPart(enc).Some?
    ensures |CutPart(enc).value.1| < |enc|
  {
    CutIsCanonical(enc[1..]);
    CutIsCanonical(CutPrefixed(enc[1..]).value.1);
  }

  function Decode(enc: string): Option<seq<Part>>
    decreases |enc|
  {
    if enc == [] then Some([])
    else
      var first := CutPart(enc);
      if first.None? then None
      else
        CutPartShrinks(enc);
        var rest := Decode(first.value.1);
        if rest.None? then None else Some([first.value.0] + rest.value)
  }

  method DecodeKey(enc: string) returns (r: Option<seq<Part>>)
    ensures r == Decode(enc)
  {
    hide CutPart;
    var parts, left := [], enc;
    assert Decode(enc).Some? ==> [] + Decode(enc).value == Decode(enc).value;
    while left != []
      invariant Decode(enc) == (if Decode(left).None? then None else Some(parts + Decode(left).value))
      decreases |left|
    {
      var first := CutPart(left);
      if first.None? { return None; }
      CutPartShrinks(left);
      var after := Decode(first.value.1);
      assert after.Some? ==> parts + ([first.value.0] + after.value) == (parts + [first.value.0]) + after.value;
      parts := parts + [first.value.0];
      left := first.value.1;
    }
    assert parts + [] == parts;
    return Some(parts);
  }

  lemma CutPartInverts(p: Part, rest: string)
    requires !p.IsZero()
    ensures CutPart(EncodePart(p) + rest) == Some((p, rest))
  {
    EncodedParts(p, rest);
    hide EncodePart, LenPrefixed, CutPrefixed;
    CutInverts(p.name, LenPrefixed(p.val) + rest);
    CutInverts(p.val, rest);
    CodesInvert(p.kind);
  }

  lemma EncodedParts(p: Part, rest: string)
    ensures var enc := EncodePart(p) + rest;
            enc != [] && enc[0] == KindCode(p.kind) && enc[1..] == LenPrefixed(p.name) + (LenPrefixed(p.val) + rest)
  {
    hide LenPrefixed;
  }

  lemma CodesInvert(k: Kind)
    ensures KindOfCode(KindCode(k)) == k
  {
  }

  /** Decoding undoes encoding. */
  lemma {:induction false} DecodeInvertsEncode(ps: seq<Part>)
    requires forall i :: 0 <= i < |ps| ==> !ps[i].IsZero()
    ensures Decode(EncodeParts(ps)) == Some(ps)
  {
    hide CutPart, EncodePart;
    if ps != [] {
      EncodedParts(ps[0], EncodeParts(ps[1..]));
      CutPartInverts(ps[0], EncodeParts(ps[1..]));
      DecodeInvertsEncode(ps[1..]);
      assert [ps[0]] + ps[1..] == ps;
    }
  }

  /** Every accepted string is the encoding of the parts read from it. */
  lemma {:induction false} EncodeInvertsDecode(enc: string)
    ensures Decode(enc).Some? ==>
              var ps := Decode(enc).value;
              EncodeParts(ps) == enc && forall i :: 0 <= i < |ps| ==> !ps[i].IsZero()
    decreases |enc|
  {
    if enc != [] && CutPart(enc).Some? {
      var (p, rest) := CutPart(enc).value;
      CutPartShrinks(enc);
      EncodeInvertsDecode(rest);
      CutPartCanonical(enc);
      if Decode(rest).Some? {
        assert Decode(enc).value[0] == p && Decode(enc).value[1..] == Decode(rest).value;
      }
    }
  }

  lemma CutPartCanonical(enc: string)
    requires enc != [] && CutPart(enc).Some?
    ensures !CutPart(enc).value.0.IsZero() && enc == EncodePart(CutPart(enc).value.0) + CutPart(enc).value.1
  {
    hide CutPrefixed, LenPrefixed;
    CutIsCanonical(enc[1..]);
    var (name, more) := CutPrefixed(enc[1..]).value;
    CutIsCanonical(more);
    var (val, rest) := CutPrefixed(more).value;
    var code, a, b := [enc[0]], LenPrefixed(name), LenPrefixed(val);
    assert enc == code + enc[1..] && code + (a + (b + rest)) == (code + a + b) + rest;
  }

  /** Distinct part tuples never share an encoding. */
  lemma EncodingInjective(ps: seq<Part>, qs: seq<Part>)
    requires forall i :: 0 <= i < |ps| ==> !ps[i].IsZero()
    requires forall i :: 0 <= i < |qs| ==> !qs[i].IsZero()
    requires EncodeParts(ps) == EncodeParts(qs)
    ensures ps == qs
  {
    DecodeInvertsEncode(ps);
    DecodeInvertsEncode(qs);
  }

  // ----- Building a key -----

  const MAX_PARTS: nat := 16

  /** An error names the kind it is about, and no kind when there are too many parts to look at. */
  datatype KeyResult = Key(enc: string) | ZeroError | MissingError(kind: Kind) | ExtraError(kind: Kind)

  /** What `Declare` admits as a list of kinds. */
  predicate Declarable(kinds: seq<Kind>) {
    |kinds| <= MAX_PARTS && forall i :: 0 <= i < |kinds| ==> kinds[i] != KindNone
  }

  function KindsOf(parts: seq<Part>): (ks: seq<Kind>)
    ensures |ks| == |parts| && forall i :: 0 <= i < |ks| ==> ks[i] == parts[i].kind
  {
    seq(|parts|, i requires 0 <= i < |parts| => parts[i].kind)
  }

  function Select(parts: seq<Part>, order: seq<nat>): (ps: seq<Part>)
    requires forall k :: 0 <= k < |order| ==> order[k] < |parts|
    ensures |ps| == |order| && forall k :: 0 <= k < |ps| ==> ps[k] == parts[order[k]]
  {
    seq(|order|, k requires 0 <= k < |order| => parts[order[k]])
  }

  /** `order` lists distinct arguments of the declared kinds, those of one kind in argument order. */
  ghost predicate Arranges(kinds: seq<Kind>, parts: seq<Part>, order: seq<nat>) {
    && |order| == |kinds|
    && (forall k :: 0 <= k < |order| ==> order[k] < |parts| && parts[order[k]].kind == kinds[k])
    && (forall k, l :: 0 <= k < l < |order| ==> order[k] != order[l])
    && (forall k, l :: 0 <= k < l < |order| && kinds[k] == kinds[l] ==> order[k] < order[l])
  }

  predicate NoZero(parts: seq<Part>) {
    forall i :: 0 <= i < |parts| ==> !parts[i].IsZero()
  }

  /** The parts do not cover the declared kinds up to the `k`-th. */
  ghost predicate Missing(kinds: seq<Kind>, parts: seq<Part>, k: nat)
    requires k < |kinds|
  {
    multiset(KindsOf(parts))[kinds[k]] < multiset(kinds[..k + 1])[kinds[k]]
  }

  ghost predicate FirstMissing(kinds: seq<Kind>, parts: seq<Part>, k: nat) {
    k < |kinds| && Missing(kinds, parts, k) && forall l :: 0 <= l < k ==> !Missing(kinds, parts, l)
  }

  /** The parts up to the `i`-th are more of its kind than were declared. */
  ghost predicate Surplus(kinds: seq<Kind>, parts: seq<Part>, i: nat)
    requires i < |parts|
  {
    multiset(kinds)[parts[i].kind] < multiset(KindsOf(parts[..i + 1]))[parts[i].kind]
  }

  ghost predicate FirstSurplus(kinds: seq<Kind>, parts: seq<Part>, i: nat) {
    i < |parts| && Surplus(kinds, parts, i) && forall j :: 0 <= j < i ==> !Surplus(kinds, parts, j)
  }

  /** The kinds of the first `n` arguments. */
  ghost function FirstKinds(parts: seq<Part>, n: nat): multiset<Kind>
    requires n <= |parts|
  {
    multiset(KindsOf(parts[..n]))
  }

  lemma FirstKindsStep(parts: seq<Part>, n: nat)
    requires n < |parts|
    ensures FirstKinds(parts, n + 1) == FirstKinds(parts, n) + multiset{parts[n].kind}
  {
    assert KindsOf(parts[..n + 1]) == KindsOf(parts[..n]) + [parts[n].kind];
  }

  lemma AllKinds(parts: seq<Part>)
    ensures FirstKinds(parts, 0) == multiset{} && FirstKinds(parts, |parts|) == multiset(KindsOf(parts))
  {
    assert parts[..|parts|] == parts;
  }

  /** The kinds of those of the first `n` arguments not yet used. */
  ghost function Unused(parts: seq<Part>, used: seq<bool>, n: nat): multiset<Kind>
    requires n <= |parts| <= |used|
  {
    if n == 0 then multiset{}
    else Unused(parts, used, n - 1) + if used[n - 1] then multiset{} else multiset{parts[n - 1].kind}
  }

  lemma {:induction false} UnusedAll(parts: seq<Part>, used: seq<bool>, n: nat)
    requires n <= |parts| <= |used| && forall i :: 0 <= i < n ==> !used[i]
    ensures Unused(parts, used, n) == FirstKinds(parts, n)
  {
    hide FirstKinds;
    AllKinds(parts);
    if n > 0 {
      UnusedAll(parts, used, n - 1);
      FirstKindsStep(parts, n - 1);
    }
  }

  lemma {:induction false} UnusedHas(parts: seq<Part>, used: seq<bool>, n: nat, k: Kind)
    requires n <= |parts| <= |used|
    ensures k in Unused(parts, used, n) <==> exists i :: 0 <= i < n && !used[i] && parts[i].kind == k
  {
    if n > 0 {
      UnusedHas(parts, used, n - 1, k);
    }
  }

  lemma {:induction false} UnusedMark(parts: seq<Part>, used: seq<bool>, at: nat, n: nat)
    requires n <= |parts| <= |used| && at < |parts| && !used[at]
    ensures Unused(parts, used, n) ==
            Unused(parts, used[at := true], n) + if at < n then multiset{parts[at].kind} else multiset{}
  {
    if n > 0 {
      var more, kind := used[at := true], multiset{parts[n - 1].kind};
      UnusedMark(parts, used, at, n - 1);
      UnusedStep(parts, used, n);
      UnusedStep(parts, more, n);
      hide Unused;
      if n - 1 != at {
        var marked := if at < n - 1 then multiset{parts[at].kind} else multiset{};
        var last := if used[n - 1] then multiset{} else kind;
        AddToBoth(Unused(parts, used, n - 1), Unused(parts, more, n - 1), marked, last);
      }
    }
  }

  lemma AddToBoth(x: multiset<Kind>, y: multiset<Kind>, m: multiset<Kind>, d: multiset<Kind>)
    requires x == y + m
    ensures x + d == y + d + m
  {
  }

  lemma UnusedStep(parts: seq<Part>, used: seq<bool>, n: nat)
    requires 0 < n <= |parts| <= |used|
    ensures Unused(parts, used, n) ==
            Unused(parts, used, n - 1) + if used[n - 1] then multiset{} else multiset{parts[n - 1].kind}
  {
  }

  lemma {:induction false} NothingUnused(parts: seq<Part>, used: seq<bool>, n: nat)
    requires n <= |parts| <= |used| && forall i :: 0 <= i < n ==> used[i]
    ensures Unused(parts, used, n) == multiset{}
  {
    if n > 0 {
      NothingUnused(parts, used, n - 1);
    }
  }

  /** When the first `i` arguments are used, at most the others of a kind are left, and all of them if none is used. */
  lemma {:induction false} UnusedBeyond(parts: seq<Part>, used: seq<bool>, i: nat, n: nat, k: Kind)
    requires i <= n <= |parts| <= |used| && forall j :: 0 <= j < i ==> used[j]
    ensures FirstKinds(parts, i)[k] + Unused(parts, used, n)[k] <= FirstKinds(parts, n)[k]
    ensures (forall j :: i <= j < n && parts[j].kind == k ==> !used[j]) ==>
              FirstKinds(parts, i)[k] + Unused(parts, used, n)[k] == FirstKinds(parts, n)[k]
  {
    hide FirstKinds;
    if i == n {
      NothingUnused(parts, used, n);
    } else {
      UnusedBeyond(parts, used, i, n - 1, k);
      FirstKindsStep(parts, n - 1);
    }
  }

  /** The arguments chosen for the declared kinds `ks` so far, and the flags that record them. */
  ghost predicate Matched(ks: seq<Kind>, parts: seq<Part>, order: seq<nat>, used: seq<bool>) {
    && |parts| <= |used| && Arranges(ks, parts, order)
    && (forall i :: 0 <= i < |parts| ==> (used[i] <==> i in order))
    && (forall i, j :: 0 <= i < |parts| && 0 <= j < |parts| && used[i] && !used[j] && parts[i].kind == parts[j].kind ==>
          i < j)
    && multiset(KindsOf(parts)) == multiset(ks) + Unused(parts, used, |parts|)
  }

  lemma MatchedStart(parts: seq<Part>, used: seq<bool>)
    requires |parts| <= |used| && forall i :: 0 <= i < |used| ==> !used[i]
    ensures Matched([], parts, [], used)
  {
    hide FirstKinds;
    UnusedAll(parts, used, |parts|);
    AllKinds(parts);
  }

  lemma ArrangesStep(ks: seq<Kind>, parts: seq<Part>, order: seq<nat>, used: seq<bool>, at: nat)
    requires Arranges(ks, parts, order) && |parts| <= |used| && at < |parts| && !used[at]
    requires forall i :: 0 <= i < |parts| ==> (used[i] <==> i in order)
    requires forall i :: 0 <= i < |parts| && used[i] && parts[i].kind == parts[at].kind ==> i < at
    ensures Arranges(ks + [parts[at].kind], parts, order + [at])
  {
    forall k | 0 <= k < |order| ensures order[k] != at && (ks[k] == parts[at].kind ==> order[k] < at) {
      assert order[k] in order;
    }
  }

  lemma MatchedStep(ks: seq<Kind>, parts: seq<Part>, order: seq<nat>, used: seq<bool>, at: nat)
    requires Matched(ks, parts, order, used) && at < |parts| && !used[at]
    requires forall j :: 0 <= j < at ==> used[j] || parts[j].kind != parts[at].kind
    ensures Matched(ks + [parts[at].kind], parts, order + [at], used[at := true])
  {
    hide Unused, Arranges;
    UnusedMark(parts, used, at, |parts|);
    assert multiset(ks + [parts[at].kind]) == multiset(ks) + multiset{parts[at].kind};
    ArrangesStep(ks, parts, order, used, at);
  }

  /** The first unused argument of a kind; `|parts|` if there is none. */
  method FindUnused(parts: seq<Part>, used: seq<bool>, kind: Kind) returns (at: nat)
    requires |parts| <= |used|
    ensures at <= |parts| && forall j :: 0 <= j < at ==> used[j] || parts[j].kind != kind
    ensures at < |parts| ==> !used[at] && parts[at].kind == kind
  {
    at := 0;
    while at < |parts| && (used[at] || parts[at].kind != kind)
      invariant at <= |parts| && forall j :: 0 <= j < at ==> used[j] || parts[j].kind != kind
    {
      at := at + 1;
    }
  }

  method WriteParts(parts: seq<Part>, order: seq<nat>) returns (enc: string)
    requires forall k :: 0 <= k < |order| ==> order[k] < |parts|
    ensures enc == EncodeParts(Select(parts, order))
  {
    hide EncodeParts;
    SizeStart(parts);
    enc := "";
    for k := 0 to |order|
      invariant enc == EncodeParts(Select(parts, order[..k]))
    {
      var p := parts[order[k]];
      SizeStep(parts, order[..k], order[k]);
      assert order[..k + 1] == order[..k] + [order[k]];
      enc := enc + [KindCode(p.kind)] + Itoa(|p.name|) + ":" + p.name + Itoa(|p.val|) + ":" + p.val;
    }
    assert order[..|order|] == order;
  }

  lemma {:induction false} EncodeSnoc(ps: seq<Part>, p: Part)
    ensures EncodeParts(ps + [p]) == EncodeParts(ps) + EncodePart(p)
  {
    if ps == [] {
      assert ([p])[1..] == [];
    } else {
      assert (ps + [p])[1..] == ps[1..] + [p];
      EncodeSnoc(ps[1..], p);
    }
  }

  /** The arguments matched to the declared kinds, with the size their encoding will have. */
  datatype Matching = Matching(order: seq<nat>, size: nat) | Unmatched(at: nat) | Leftover(part: nat)

  method MatchParts(kinds: seq<Kind>, parts: seq<Part>) returns (m: Matching)
    requires |parts| <= MAX_PARTS
    ensures m.Matching? <==> multiset(KindsOf(parts)) == multiset(kinds)
    ensures m.Matching? ==> Arranges(kinds, parts, m.order) && m.size == |EncodeParts(Select(parts, m.order))|
    ensures m.Unmatched? ==> FirstMissing(kinds, parts, m.at)
    ensures !m.Unmatched? ==> forall l :: 0 <= l < |kinds| ==> !Missing(kinds, parts, l)
    ensures m.Leftover? ==> FirstSurplus(kinds, parts, m.part)
  {
    hide Matched, Unused, EncodeParts, Arranges, Missing, Surplus;
    var used, order: seq<nat>, size := seq(MAX_PARTS, _ => false), [], 0;
    MatchedStart(parts, used);
    SizeStart(parts);
    for k := 0 to |kinds|
      invariant |used| == MAX_PARTS && Matched(kinds[..k], parts, order, used)
      invariant forall l :: 0 <= l < |order| ==> order[l] < |parts|
      invariant size == |EncodeParts(Select(parts, order))|
      invariant forall l :: 0 <= l < k ==> !Missing(kinds, parts, l)
    {
      var at := FindUnused(parts, used, kinds[k]);
      if at == |parts| {
        MissingKind(kinds, k, parts, order, used);
        return Unmatched(k);
      }
      var p := parts[at];
      var nameLen := DecimalLen(|p.name|);
      var valLen := DecimalLen(|p.val|);
      SizeStep(parts, order, at);
      MatchedStep(kinds[..k], parts, order, used, at);
      assert kinds[..k + 1] == kinds[..k] + [kinds[k]];
      NotMissing(kinds, k, parts, order + [at], used[at := true]);
      used := used[at := true];
      order := order + [at];
      size := size + 1 + nameLen + 1 + |p.name| + valLen + 1 + |p.val|;
    }
    assert kinds[..|kinds|] == kinds;
    for i := 0 to |parts|
      invariant forall j :: 0 <= j < i ==> used[j]
    {
      if !used[i] {
        LeftoverPart(kinds, parts, order, used, i);
        return Leftover(i);
      }
    }
    AllMatched(kinds, parts, order, used);
    return Matching(order, size);
  }

  lemma SizeStart(parts: seq<Part>)
    ensures EncodeParts(Select(parts, [])) == ""
  {}

  lemma SizeStep(parts: seq<Part>, order: seq<nat>, at: nat)
    requires at < |parts| && forall k :: 0 <= k < |order| ==> order[k] < |parts|
    ensures forall k :: 0 <= k < |order + [at]| ==> (order + [at])[k] < |parts|
    ensures EncodeParts(Select(parts, order + [at])) == EncodeParts(Select(parts, order)) + EncodePart(parts[at])
  {
    hide EncodePart, EncodeParts;
    EncodeSnoc(Select(parts, order), parts[at]);
    assert Select(parts, order + [at]) == Select(parts, order) + [parts[at]];
  }

  lemma CountAt(kinds: seq<Kind>, k: nat)
    requires k < |kinds|
    ensures multiset(kinds[..k])[kinds[k]] < multiset(kinds[..k + 1])[kinds[k]] <= multiset(kinds)[kinds[k]]
  {
    assert kinds[..k + 1] == kinds[..k] + [kinds[k]];
    assert kinds == kinds[..k + 1] + kinds[k + 1..];
  }

  lemma NotMissing(kinds: seq<Kind>, k: nat, parts: seq<Part>, order: seq<nat>, used: seq<bool>)
    requires k < |kinds| && Matched(kinds[..k + 1], parts, order, used)
    ensures !Missing(kinds, parts, k)
  {
    hide Unused, Arranges, KindsOf;
  }

  lemma MissingKind(kinds: seq<Kind>, k: nat, parts: seq<Part>, order: seq<nat>, used: seq<bool>)
    requires k < |kinds| && Matched(kinds[..k], parts, order, used)
    requires forall j :: 0 <= j < |parts| ==> used[j] || parts[j].kind != kinds[k]
    ensures Missing(kinds, parts, k) && multiset(KindsOf(parts)) != multiset(kinds)
  {
    assert multiset(KindsOf(parts)) == multiset(kinds[..k]) + Unused(parts, used, |parts|);
    hide Matched, Unused;
    UnusedHas(parts, used, |parts|, kinds[k]);
    hide KindsOf;
    CountAt(kinds, k);
  }

  /** The arguments of one kind left over at the end are the last of it. */
  lemma LeftAreLast(kinds: seq<Kind>, parts: seq<Part>, order: seq<nat>, used: seq<bool>, i: nat)
    requires Matched(kinds, parts, order, used) && i < |parts| && !used[i]
    ensures |parts| <= |used| && multiset(KindsOf(parts)) == multiset(kinds) + Unused(parts, used, |parts|)
    ensures forall j :: i <= j < |parts| && parts[j].kind == parts[i].kind ==> !used[j]
  {
    hide Unused, KindsOf;
  }

  lemma SurplusHere(kinds: seq<Kind>, parts: seq<Part>, used: seq<bool>, i: nat)
    requires i < |parts| <= |used| && !used[i] && forall j :: 0 <= j < i ==> used[j]
    requires multiset(KindsOf(parts)) == multiset(kinds) + Unused(parts, used, |parts|)
    requires forall j :: i <= j < |parts| && parts[j].kind == parts[i].kind ==> !used[j]
    ensures multiset(KindsOf(parts)) != multiset(kinds) && Surplus(kinds, parts, i)
  {
    hide Unused, FirstKinds, KindsOf, Surplus;
    AllKinds(parts);
    UnusedBeyond(parts, used, i, |parts|, parts[i].kind);
    UnusedHas(parts, used, |parts|, parts[i].kind);
    FirstKindsStep(parts, i);
    SurplusMeaning(kinds, parts, i);
  }

  lemma NoSurplusBefore(kinds: seq<Kind>, parts: seq<Part>, used: seq<bool>, i: nat, j: nat)
    requires j < i <= |parts| <= |used| && forall k :: 0 <= k < i ==> used[k]
    requires multiset(KindsOf(parts)) == multiset(kinds) + Unused(parts, used, |parts|)
    ensures !Surplus(kinds, parts, j)
  {
    hide Unused, FirstKinds, KindsOf, Surplus;
    AllKinds(parts);
    UnusedBeyond(parts, used, i, |parts|, parts[j].kind);
    FirstKindsGrow(parts, j + 1, i, parts[j].kind);
    SurplusMeaning(kinds, parts, j);
  }

  lemma LeftoverPart(kinds: seq<Kind>, parts: seq<Part>, order: seq<nat>, used: seq<bool>, i: nat)
    requires Matched(kinds, parts, order, used) && i < |parts| && !used[i] && forall j :: 0 <= j < i ==> used[j]
    ensures multiset(KindsOf(parts)) != multiset(kinds) && FirstSurplus(kinds, parts, i)
  {
    LeftAreLast(kinds, parts, order, used, i);
    hide Matched, Unused, KindsOf, Surplus;
    SurplusHere(kinds, parts, used, i);
    forall j | 0 <= j < i ensures !Surplus(kinds, parts, j) {
      NoSurplusBefore(kinds, parts, used, i, j);
    }
  }

  lemma SurplusMeaning(kinds: seq<Kind>, parts: seq<Part>, i: nat)
    requires i < |parts|
    ensures Surplus(kinds, parts, i) <==> multiset(kinds)[parts[i].kind] < FirstKinds(parts, i + 1)[parts[i].kind]
  {
  }

  lemma {:induction false} FirstKindsGrow(parts: seq<Part>, j: nat, i: nat, k: Kind)
    requires j <= i <= |parts|
    ensures FirstKinds(parts, j)[k] <= FirstKinds(parts, i)[k]
    decreases i
  {
    hide FirstKinds;
    if j < i {
      FirstKindsGrow(parts, j, i - 1, k);
      FirstKindsStep(parts, i - 1);
    }
  }

  lemma AllMatched(kinds: seq<Kind>, parts: seq<Part>, order: seq<nat>, used: seq<bool>)
    requires Matched(kinds, parts, order, used) && forall i :: 0 <= i < |parts| ==> used[i]
    ensures multiset(KindsOf(parts)) == multiset(kinds) && Arranges(kinds, parts, order)
  {
    NothingUnused(parts, used, |parts|);
  }

  /** `(*Spec).Key`. It succeeds exactly for non-zero parts whose kinds are the declared kinds in some
      order; the key then encodes the parts in declared order, and the builder was grown to its length. */
  method BuildKey(kinds: seq<Kind>, parts: seq<Part>) returns (r: KeyResult, grown: nat)
    requires Declarable(kinds)
    ensures r.Key? <==> NoZero(parts) && multiset(KindsOf(parts)) == multiset(kinds)
    ensures r.Key? ==> exists order :: Arranges(kinds, parts, order) && r.enc == EncodeParts(Select(parts, order))
    ensures r.Key? ==> grown == |r.enc|
    ensures r.ZeroError? <==> !NoZero(parts)
    ensures r.MissingError? <==> NoZero(parts) && |parts| <= MAX_PARTS && exists k: nat :: FirstMissing(kinds, parts, k)
    ensures r.MissingError? ==> exists k: nat :: FirstMissing(kinds, parts, k) && r.kind == kinds[k]
    ensures r.ExtraError? && |parts| > MAX_PARTS ==> r.kind == KindNone
    ensures r.ExtraError? && |parts| <= MAX_PARTS ==>
            exists i: nat :: FirstSurplus(kinds, parts, i) && r.kind == parts[i].kind
  {
    hide EncodeParts, Missing, Surplus;
    grown := 0;
    for i := 0 to |parts|
      invariant forall j :: 0 <= j < i ==> !parts[j].IsZero()
    {
      if parts[i].IsZero() { return ZeroError, 0; }
    }
    if |parts| > MAX_PARTS {
      assert |multiset(KindsOf(parts))| == |parts| && |multiset(kinds)| == |kinds|;
      return ExtraError(KindNone), 0;
    }
    var m := MatchParts(kinds, parts);
    match m {
      case Unmatched(at) => return MissingError(kinds[at]), 0;
      case Leftover(part) => return ExtraError(parts[part].kind), 0;
      case Matching(order, size) =>
        var enc := WriteParts(parts, order);
        return Key(enc), size;
    }
  }

  /** Which argument goes where is settled: two arrangements of the same arguments select the same parts. */
  lemma {:induction false} ArrangementUnique(kinds: seq<Kind>, parts: seq<Part>, o: seq<nat>, q: seq<nat>, n: nat)
    requires Arranges(kinds, parts, o) && Arranges(kinds, parts, q) && |parts| == |kinds| && n <= |kinds|
    requires forall i :: 0 <= i < |parts| ==> i in o && i in q
    ensures o[..n] == q[..n]
  {
    if n > 0 {
      ArrangementUnique(kinds, parts, o, q, n - 1);
      var k := n - 1;
      EarlierElsewhere(kinds, parts, o, q, k);
      EarlierElsewhere(kinds, parts, q, o, k);
    }
  }

  lemma EarlierElsewhere(kinds: seq<Kind>, parts: seq<Part>, o: seq<nat>, q: seq<nat>, k: nat)
    requires Arranges(kinds, parts, o) && Arranges(kinds, parts, q) && k < |kinds| && o[..k] == q[..k]
    requires o[k] in q
    ensures q[k] <= o[k]
  {
    assert forall m :: 0 <= m < k ==> q[m] == q[..k][m] == o[m];
    var l :| 0 <= l < |q| && q[l] == o[k];
  }

  /** The parts a key decodes to are the arguments in declared order. */
  lemma KeyDecodes(kinds: seq<Kind>, parts: seq<Part>, order: seq<nat>)
    requires Arranges(kinds, parts, order) && NoZero(parts)
    ensures Decode(EncodeParts(Select(parts, order))) == Some(Select(parts, order))
  {
    DecodeInvertsEncode(Select(parts, order));
  }

  // ----- Tenants -----

  function MakePart(kind: Kind, name: string, val: string): Part {
    if val == "" then ZERO_PART else Part(kind, name, val)
  }

  function Org(org: string): Part { MakePart(KindTenant, "org", org) }

  function User(user: string): Part { MakePart(KindTenant, "user", user) }

  function OrgUser(org: string, user: string): Part {
    if org == "" || user == "" then ZERO_PART else Part(KindTenant, "org-user", LenPrefixed(org) + user)
  }

  function Tenant(org: string, user: string): Part {
    if org != "" then Org(org) else User(user)
  }

  /** The pair inside an org-user part can be read back, so no two pairs share a tenant. */
  lemma OrgUserInjective(o: string, u: string, o': string, u': string)
    requires o != "" && u != "" && o' != "" && u' != "" && OrgUser(o, u) == OrgUser(o', u')
    ensures o == o' && u == u'
  {
    CutInverts(o, u);
    CutInverts(o', u');
  }

  /** An owner is never mistaken for another owner, nor for an org-user view. */
  lemma TenantsApart(o: string, u: string, o': string, u': string)
    requires o != "" || u != ""
    ensures !Tenant(o, u).IsZero() && Tenant(o, u) != OrgUser(o', u')
    ensures Tenant(o, u) == Tenant(o', u') ==> o == o' && (o == "" ==> u == u')
  {}
}
