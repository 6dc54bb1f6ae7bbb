// The string helpers and the interactive state of the calculator's main
// program (DsignCalculator/DsignCalculator.cpp): symbol normalisation, the
// `trim` lambdas, parameter assignments, the wheel-zoom clamp, the adaptive
// sampling step and the rule by which Enter commits a new graph to a slot.
//
// Strings hold one char per byte, so the UTF-8 symbols the program rewrites
// are sequences of chars in 128..255.

module Calculator {
  import opened Wrappers
  import opened Numeric
  import opened Tokens
  import opened Tokenizer
  import opened Parser
  import opened Grapher

  // ---------------------------------------------------------------------
  // Searching and splicing (std::string::find, std::string::replace)
  // ---------------------------------------------------------------------

  /** `a` occurs in `s` starting at index `q`. */
  predicate OccursAt(s: string, a: string, q: int) {
    0 <= q && q + |a| <= |s| && forall k :: 0 <= k < |a| ==> s[q + k] == a[k]
  }

  /** `s.find(a, p)`: the first index at or after `p` where `a` occurs. */
  function Find(s: string, a: string, p: nat): (r: Option<nat>)
    decreases |s| - p
    ensures r.Some? ==> p <= r.value && r.value + |a| <= |s|
  {
    if p + |a| > |s| then None
    else if OccursAt(s, a, p) then Some(p)
    else Find(s, a, p + 1)
  }

  /** `Find` returns the first occurrence at or after the cursor, or `None` when there is none. */
  lemma {:induction false} FindSpec(s: string, a: string, p: nat)
    ensures Find(s, a, p).Some? ==> OccursAt(s, a, Find(s, a, p).value)
    ensures Find(s, a, p).Some? ==> forall q :: p <= q < Find(s, a, p).value ==> !OccursAt(s, a, q)
    ensures Find(s, a, p).None? ==> forall q :: p <= q ==> !OccursAt(s, a, q)
    decreases |s| - p
  {
    if p + |a| <= |s| && !OccursAt(s, a, p) {
      FindSpec(s, a, p + 1);
    }
  }

  /** Searching for a one-char string finds the first position holding that char. */
  lemma FindChar(s: string, c: char)
    ensures Find(s, [c], 0).Some? <==> c in s
    ensures Find(s, [c], 0).Some? ==> s[Find(s, [c], 0).value] == c && c !in s[..Find(s, [c], 0).value]
  {
    FindSpec(s, [c], 0);
    forall q | 0 <= q < |s|
      ensures OccursAt(s, [c], q) <==> s[q] == c
    {
      assert [c][0] == c;
    }
  }

  /** `s.replace(q, n, b)`: the `n` chars at `q` become `b`. */
  function Splice(s: string, q: nat, n: nat, b: string): (t: string)
    requires q + n <= |s|
    ensures |t| == |s| - n + |b|
  {
    s[..q] + b + s[q + n..]
  }

  /** Where each char of a splice comes from: the old prefix, the new text, the old suffix. */
  lemma SpliceChars(s: string, q: nat, n: nat, b: string)
    requires q + n <= |s|
    ensures forall i :: 0 <= i < q ==> Splice(s, q, n, b)[i] == s[i]
    ensures forall i :: 0 <= i < |b| ==> Splice(s, q, n, b)[q + i] == b[i]
    ensures forall i :: q + |b| <= i < |s| - n + |b| ==> Splice(s, q, n, b)[i] == s[i + n - |b|]
  {
  }

  /** An occurrence wholly before the splice was already in the old string. */
  lemma SpliceBefore(s: string, q: nat, n: nat, b: string, a: string, r: int)
    requires q + n <= |s| && 0 <= r && r + |a| <= q
    ensures OccursAt(Splice(s, q, n, b), a, r) ==> OccursAt(s, a, r)
  {
    var t := Splice(s, q, n, b);
    SpliceChars(s, q, n, b);
    if OccursAt(t, a, r) {
      forall k | 0 <= k < |a|
        ensures s[r + k] == a[k]
      {
        assert t[r + k] == s[r + k];
      }
    }
  }

  /** An occurrence wholly after the inserted text was already in the old string, shifted. */
  lemma SpliceAfter(s: string, q: nat, n: nat, b: string, a: string, r: int)
    requires q + n <= |s| && q + |b| <= r
    ensures OccursAt(Splice(s, q, n, b), a, r) ==> OccursAt(s, a, r - |b| + n)
  {
    var t := Splice(s, q, n, b);
    SpliceChars(s, q, n, b);
    if OccursAt(t, a, r) {
      var r' := r - |b| + n;
      forall k | 0 <= k < |a|
        ensures s[r' + k] == a[k]
      {
        assert t[r + k] == s[r' + k];
      }
    }
  }

  // ---------------------------------------------------------------------
  // replaceAll
  // ---------------------------------------------------------------------

  predicate Ascii(s: string) {
    forall i :: 0 <= i < |s| ==> s[i] as int < 128
  }

  predicate NonAscii(s: string) {
    forall i :: 0 <= i < |s| ==> s[i] as int >= 128
  }

  /** `a` occurs nowhere in `s`. */
  ghost predicate Absent(s: string, a: string) {
    forall q :: !OccursAt(s, a, q)
  }

  /**
   * The `replaceAll` loop from cursor `p` on: find the next `a`, splice in
   * `b` and resume scanning after the inserted text.
   */
  function ReplacedFrom(s: string, a: string, b: string, p: nat): string
    requires |a| > 0
    decreases |s| - p
  {
    match Find(s, a, p)
    case None => s
    case Some(q) => ReplacedFrom(Splice(s, q, |a|, b), a, b, q + |b|)
  }

  /** What `replaceAll(a, b)` leaves in `s`. */
  function Replaced(s: string, a: string, b: string): string
    requires |a| > 0
  {
    ReplacedFrom(s, a, b, 0)
  }

  /** One round of the `replaceAll` loop. */
  lemma ReplacedFromStep(s: string, a: string, b: string, p: nat, q: nat)
    requires |a| > 0 && Find(s, a, p) == Some(q)
    ensures ReplacedFrom(s, a, b, p) == ReplacedFrom(Splice(s, q, |a|, b), a, b, q + |b|)
  {
  }

  /** The `replaceAll` lambda of `normalizeExpression`. */
  method ReplaceAll(s0: string, a: string, b: string) returns (s: string)
    requires |a| > 0
    ensures s == Replaced(s0, a, b)
    ensures s == Substituted(s0, a, b)
  {
    s := s0;
    var p: nat := 0;
    var found := Find(s, a, p);
    while found.Some?
      invariant found == Find(s, a, p)
      invariant ReplacedFrom(s, a, b, p) == Replaced(s0, a, b)
      decreases |s| - p
    {
      var q := found.value;
      ReplacedFromStep(s, a, b, p, q);
      s := Splice(s, q, |a|, b);
      p := q + |b|;
      found := Find(s, a, p);
    }
    ReplacedIsSubstituted(s0, a, b);
  }

  /** A window of `t` that covers an ASCII char cannot hold a non-ASCII pattern. */
  lemma AsciiBlocks(t: string, a: string, r: int, j: int)
    requires NonAscii(a) && r <= j < r + |a| && 0 <= j < |t| && t[j] as int < 128
    ensures !OccursAt(t, a, r)
  {
    assert a[j - r] as int >= 128;
  }

  /** From the splice of ASCII text at the first occurrence, no occurrence starts before the resumed cursor. */
  lemma SpliceClean(s: string, a: string, b: string, p: nat, q: nat)
    requires |a| > 0 && |b| > 0 && NonAscii(a) && Ascii(b)
    requires Find(s, a, p) == Some(q)
    requires forall r :: 0 <= r < p ==> !OccursAt(s, a, r)
    ensures forall r :: 0 <= r < q + |b| ==> !OccursAt(Splice(s, q, |a|, b), a, r)
  {
    FindSpec(s, a, p);
    var t := Splice(s, q, |a|, b);
    SpliceChars(s, q, |a|, b);
    forall r | 0 <= r < q + |b|
      ensures !OccursAt(t, a, r)
    {
      if r + |a| <= q {
        SpliceBefore(s, q, |a|, b, a, r);
      } else if r + |a| <= |t| {
        var j := if r < q then q else r;
        assert t[q + (j - q)] == b[j - q];
        AsciiBlocks(t, a, r, j);
      }
    }
  }

  lemma {:induction false} ReplacedFromClean(s: string, a: string, b: string, p: nat)
    requires |a| > 0 && |b| > 0 && NonAscii(a) && Ascii(b)
    requires forall r :: 0 <= r < p ==> !OccursAt(s, a, r)
    ensures Absent(ReplacedFrom(s, a, b, p), a)
    decreases |s| - p
  {
    FindSpec(s, a, p);
    match Find(s, a, p)
    case None =>
    case Some(q) =>
      SpliceClean(s, a, b, p, q);
      ReplacedFromClean(Splice(s, q, |a|, b), a, b, q + |b|);
  }

  /**
   * After `replaceAll(a, b)` the pattern is gone, because `b` is ASCII and
   * scanning resumes after the inserted text.
   */
  lemma ReplacedRemovesPattern(s: string, a: string, b: string)
    requires |a| > 0 && |b| > 0 && NonAscii(a) && Ascii(b)
    ensures Absent(Replaced(s, a, b), a)
  {
    ReplacedFromClean(s, a, b, 0);
  }

  /** Splicing ASCII text over a non-ASCII pattern creates no other non-ASCII pattern. */
  lemma SpliceKeepsAbsent(s: string, a: string, b: string, q: nat, c: string)
    requires |a| > 0 && |b| > 0 && |c| > 0 && NonAscii(c) && Ascii(b)
    requires q + |a| <= |s| && Absent(s, c)
    ensures Absent(Splice(s, q, |a|, b), c)
  {
    var t := Splice(s, q, |a|, b);
    SpliceChars(s, q, |a|, b);
    forall r
      ensures !OccursAt(t, c, r)
    {
      if 0 <= r && r + |c| <= |t| {
        if r + |c| <= q {
          SpliceBefore(s, q, |a|, b, c, r);
        } else if r >= q + |b| {
          SpliceAfter(s, q, |a|, b, c, r);
        } else {
          var j := if r < q then q else r;
          assert t[q + (j - q)] == b[j - q];
          AsciiBlocks(t, c, r, j);
        }
      }
    }
  }

  lemma {:induction false} ReplacedFromKeepsAbsent(s: string, a: string, b: string, p: nat, c: string)
    requires |a| > 0 && |b| > 0 && |c| > 0 && NonAscii(c) && Ascii(b)
    requires Absent(s, c)
    ensures Absent(ReplacedFrom(s, a, b, p), c)
    decreases |s| - p
  {
    match Find(s, a, p)
    case None =>
    case Some(q) =>
      SpliceKeepsAbsent(s, a, b, q, c);
      ReplacedFromKeepsAbsent(Splice(s, q, |a|, b), a, b, q + |b|, c);
  }

  /** A later `replaceAll` with ASCII text does not bring back an earlier symbol. */
  lemma ReplacedKeepsAbsent(s: string, a: string, b: string, c: string)
    requires |a| > 0 && |b| > 0 && |c| > 0 && NonAscii(c) && Ascii(b)
    requires Absent(s, c)
    ensures Absent(Replaced(s, a, b), c)
  {
    ReplacedFromKeepsAbsent(s, a, b, 0, c);
  }

  /** The text up to the end of the inserted part, and the text after it. */
  lemma SpliceParts(s: string, q: nat, n: nat, b: string)
    requires q + n <= |s|
    ensures Splice(s, q, n, b)[..q + |b|] == s[..q] + b
    ensures Splice(s, q, n, b)[q + |b|..] == s[q + n..]
  {
    var t := Splice(s, q, n, b);
    assert t == (s[..q] + b) + s[q + n..];
  }

  /**
   * Reference reading of `replaceAll(a, b)` on `s[i..]`: scan from the
   * left, and at each position either rewrite an occurrence of `a` to `b`
   * and continue after it, or keep the char.
   */
  function SubstitutedFrom(s: string, a: string, b: string, i: nat): string
    requires |a| > 0
    decreases |s| - i
  {
    if i >= |s| then []
    else if OccursAt(s, a, i) then b + SubstitutedFrom(s, a, b, i + |a|)
    else [s[i]] + SubstitutedFrom(s, a, b, i + 1)
  }

  function Substituted(s: string, a: string, b: string): string
    requires |a| > 0
  {
    SubstitutedFrom(s, a, b, 0)
  }

  /** An occurrence in a suffix of `s` is an occurrence in `s`, shifted. */
  lemma OccursInSuffix(s: string, a: string, p: nat, r: nat)
    requires p <= |s|
    ensures OccursAt(s[p..], a, r) <==> OccursAt(s, a, p + r)
  {
    if OccursAt(s, a, p + r) {
      forall k | 0 <= k < |a|
        ensures s[p..][r + k] == a[k]
      {
        assert s[p..][r + k] == s[p + r + k];
      }
    }
  }

  /** Text from `i` on holding no occurrence is kept as it is. */
  lemma {:induction false} SubstitutedFromAbsent(s: string, a: string, b: string, i: nat)
    requires |a| > 0 && i <= |s|
    requires forall r :: i <= r ==> !OccursAt(s, a, r)
    ensures SubstitutedFrom(s, a, b, i) == s[i..]
    decreases |s| - i
  {
    if i < |s| {
      SubstitutedFromAbsent(s, a, b, i + 1);
      assert s[i..] == [s[i]] + s[i + 1..];
    }
  }

  /** Up to the first occurrence `q` the text is kept; the occurrence becomes `b`. */
  lemma {:induction false} SubstitutedFromFirst(s: string, a: string, b: string, i: nat, q: nat)
    requires |a| > 0 && i <= q && OccursAt(s, a, q)
    requires forall r :: i <= r < q ==> !OccursAt(s, a, r)
    ensures SubstitutedFrom(s, a, b, i) == s[i..q] + (b + SubstitutedFrom(s, a, b, q + |a|))
    decreases q - i
  {
    if i < q {
      var rest := b + SubstitutedFrom(s, a, b, q + |a|);
      calc {
        SubstitutedFrom(s, a, b, i);
        [s[i]] + SubstitutedFrom(s, a, b, i + 1);
        { SubstitutedFromFirst(s, a, b, i + 1, q); }
        [s[i]] + (s[i + 1..q] + rest);
        ([s[i]] + s[i + 1..q]) + rest;
        { assert s[i..q] == [s[i]] + s[i + 1..q]; }
        s[i..q] + rest;
      }
    }
  }

  /** Substitution from `i + k` is substitution of the suffix `s[i..]` from `k`. */
  lemma {:induction false} SubstitutedFromDrop(s: string, a: string, b: string, i: nat, k: nat)
    requires |a| > 0 && i + k <= |s|
    ensures SubstitutedFrom(s, a, b, i + k) == SubstitutedFrom(s[i..], a, b, k)
    decreases |s| - i - k
  {
    if i + k < |s| {
      OccursInSuffix(s, a, i, k);
      if OccursAt(s, a, i + k) {
        SubstitutedFromDrop(s, a, b, i, k + |a|);
      } else {
        SubstitutedFromDrop(s, a, b, i, k + 1);
      }
    }
  }

  /** Cutting `s[..q]` at `p`. */
  lemma Regroup(s: string, p: nat, q: nat, b: string, r: string)
    requires p <= q <= |s|
    ensures (s[..q] + b) + r == s[..p] + (s[p..q] + (b + r))
  {
    assert s[..q] == s[..p] + s[p..q];
  }

  /** The last round of the loop: with no occurrence left, the rest is kept. */
  lemma ReplacedFromNone(s: string, a: string, b: string, p: nat)
    requires |a| > 0 && p <= |s| && Find(s, a, p).None?
    ensures ReplacedFrom(s, a, b, p) == s[..p] + SubstitutedFrom(s, a, b, p)
  {
    FindSpec(s, a, p);
    SubstitutedFromAbsent(s, a, b, p);
    assert s == s[..p] + s[p..];
  }

  /** One round of the loop: the first occurrence `q` becomes `b`, and the text before it is kept. */
  lemma ReplacedFromSome(s: string, a: string, b: string, p: nat, q: nat, t: string)
    requires |a| > 0 && p <= q && OccursAt(s, a, q)
    requires forall r :: p <= r < q ==> !OccursAt(s, a, r)
    requires |t| == q + |b| + (|s| - q - |a|)
    requires t[..q + |b|] == s[..q] + b && t[q + |b|..] == s[q + |a|..]
    ensures t[..q + |b|] + SubstitutedFrom(t, a, b, q + |b|) == s[..p] + SubstitutedFrom(s, a, b, p)
  {
    SubstitutedFromDrop(t, a, b, q + |b|, 0);
    SubstitutedFromDrop(s, a, b, q + |a|, 0);
    SubstitutedFromFirst(s, a, b, p, q);
    Regroup(s, p, q, b, SubstitutedFrom(s, a, b, q + |a|));
  }

  /** The `replaceAll` loop from cursor `p` keeps `s[..p]` and substitutes the rest. */
  lemma {:induction false} ReplacedFromSubstitutes(s: string, a: string, b: string, p: nat)
    requires |a| > 0 && p <= |s|
    ensures ReplacedFrom(s, a, b, p) == s[..p] + SubstitutedFrom(s, a, b, p)
    decreases |s| - p
  {
    var found := Find(s, a, p);
    if found.None? {
      ReplacedFromNone(s, a, b, p);
    } else {
      var q := found.value;
      var t := Splice(s, q, |a|, b);
      FindSpec(s, a, p);
      ReplacedFromStep(s, a, b, p, q);
      SpliceParts(s, q, |a|, b);
      ReplacedFromSubstitutes(t, a, b, q + |b|);
      ReplacedFromSome(s, a, b, p, q, t);
    }
  }

  /** `replaceAll(a, b)` is the left-to-right substitution of `b` for each occurrence of `a`. */
  lemma ReplacedIsSubstituted(s: string, a: string, b: string)
    requires |a| > 0
    ensures Replaced(s, a, b) == Substituted(s, a, b)
  {
    ReplacedFromSubstitutes(s, a, b, 0);
    assert s[..0] == [];
  }

  /** `replaceAll` changes nothing in text that does not hold the pattern. */
  lemma ReplacedAbsent(s: string, a: string, b: string)
    requires |a| > 0 && Absent(s, a)
    ensures Replaced(s, a, b) == s
  {
    ReplacedIsSubstituted(s, a, b);
    SubstitutedFromAbsent(s, a, b, 0);
  }

  // ---------------------------------------------------------------------
  // The symbol table of normalizeExpression
  // ---------------------------------------------------------------------

  /** One `replaceAll(from, to)` call. */
  datatype Rule = Rule(from: string, to: string)

  /** UTF-8 bytes of a symbol the program rewrites as ASCII. */
  const PiSign: string := [0xCF as char, 0x80 as char]
  const CapitalPhi: string := [0xCE as char, 0xA6 as char]
  const SmallPhi: string := [0xCF as char, 0x86 as char]
  const MiddleDot: string := [0xC2 as char, 0xB7 as char]
  const TimesSign: string := [0xC3 as char, 0x97 as char]
  const MinusSign: string := [0xE2 as char, 0x88 as char, 0x92 as char]

  /** The six calls, in program order. */
  const SymbolRules: seq<Rule> := [
    Rule(PiSign, "pi"), Rule(CapitalPhi, "phi"), Rule(SmallPhi, "phi"),
    Rule(MiddleDot, "*"), Rule(TimesSign, "*"), Rule(MinusSign, "-")]

  /** Every rule rewrites a non-empty non-ASCII symbol to non-empty ASCII text. */
  predicate WellFormed(rules: seq<Rule>) {
    forall i :: 0 <= i < |rules| ==>
      |rules[i].from| > 0 && NonAscii(rules[i].from) && |rules[i].to| > 0 && Ascii(rules[i].to)
  }

  lemma SymbolRulesWellFormed()
    ensures WellFormed(SymbolRules)
  {
  }

  /** The `replaceAll` calls applied one after another. */
  function ApplyRules(s: string, rules: seq<Rule>): string
    requires WellFormed(rules)
    decreases |rules|
  {
    if rules == [] then s
    else ApplyRules(Replaced(s, rules[0].from, rules[0].to), rules[1..])
  }

  /** Running the rules from the `k`-th on is running the `k`-th, then the rest. */
  lemma ApplyRulesStep(s: string, rules: seq<Rule>, k: nat)
    requires WellFormed(rules) && k < |rules|
    ensures ApplyRules(s, rules[k..]) == ApplyRules(Replaced(s, rules[k].from, rules[k].to), rules[k + 1..])
  {
    assert rules[k..][0] == rules[k] && rules[k..][1..] == rules[k + 1..];
  }

  lemma {:induction false} ApplyRulesKeepsAbsent(s: string, rules: seq<Rule>, c: string)
    requires WellFormed(rules) && |c| > 0 && NonAscii(c) && Absent(s, c)
    ensures Absent(ApplyRules(s, rules), c)
    decreases |rules|
  {
    if rules != [] {
      ReplacedKeepsAbsent(s, rules[0].from, rules[0].to, c);
      ApplyRulesKeepsAbsent(Replaced(s, rules[0].from, rules[0].to), rules[1..], c);
    }
  }

  /** After all the rules have run, none of their symbols is left. */
  lemma {:induction false} ApplyRulesRemovesSymbols(s: string, rules: seq<Rule>)
    requires WellFormed(rules)
    ensures forall i :: 0 <= i < |rules| ==> Absent(ApplyRules(s, rules), rules[i].from)
    decreases |rules|
  {
    if rules != [] {
      var s' := Replaced(s, rules[0].from, rules[0].to);
      ReplacedRemovesPattern(s, rules[0].from, rules[0].to);
      ApplyRulesKeepsAbsent(s', rules[1..], rules[0].from);
      ApplyRulesRemovesSymbols(s', rules[1..]);
      forall i | 0 <= i < |rules|
        ensures Absent(ApplyRules(s, rules), rules[i].from)
      {
        if i > 0 {
          assert rules[i] == rules[1..][i - 1];
        }
      }
    }
  }

  /** The input with the six symbols rewritten. */
  function AsciiSymbols(input: string): string {
    SymbolRulesWellFormed();
    ApplyRules(input, SymbolRules)
  }

  /** None of the six symbols occurs in `s`. */
  ghost predicate SymbolFree(s: string) {
    Absent(s, PiSign) && Absent(s, CapitalPhi) && Absent(s, SmallPhi) &&
    Absent(s, MiddleDot) && Absent(s, TimesSign) && Absent(s, MinusSign)
  }

  /** No pi, Phi, phi, middle dot, times or minus sign survives the rewriting. */
  lemma AsciiSymbolsClean(input: string)
    ensures SymbolFree(AsciiSymbols(input))
  {
    SymbolRulesWellFormed();
    ApplyRulesRemovesSymbols(input, SymbolRules);
    assert SymbolRules[0].from == PiSign && SymbolRules[1].from == CapitalPhi && SymbolRules[2].from == SmallPhi;
    assert SymbolRules[3].from == MiddleDot && SymbolRules[4].from == TimesSign && SymbolRules[5].from == MinusSign;
  }

  /** ASCII text holds no non-ASCII pattern. */
  lemma AsciiAbsent(s: string, a: string)
    requires Ascii(s) && |a| > 0 && NonAscii(a)
    ensures Absent(s, a)
  {
    forall q
      ensures !OccursAt(s, a, q)
    {
      if 0 <= q && q + |a| <= |s| {
        assert s[q] as int < 128 <= a[0] as int;
      }
    }
  }

  lemma {:induction false} ApplyRulesKeepsAscii(s: string, rules: seq<Rule>)
    requires WellFormed(rules) && Ascii(s)
    ensures ApplyRules(s, rules) == s
    decreases |rules|
  {
    if rules != [] {
      AsciiAbsent(s, rules[0].from);
      ReplacedAbsent(s, rules[0].from, rules[0].to);
      ApplyRulesKeepsAscii(s, rules[1..]);
    }
  }

  /** A line of ASCII text, such as every line typed into an input box, passes the rewriting unchanged. */
  lemma AsciiSymbolsIdentity(s: string)
    requires Ascii(s)
    ensures AsciiSymbols(s) == s
  {
    SymbolRulesWellFormed();
    ApplyRulesKeepsAscii(s, SymbolRules);
  }

  // ---------------------------------------------------------------------
  // trim
  // ---------------------------------------------------------------------

  /** `isspace` in the C locale: space, tab, newline, vertical tab, form feed, return. */
  predicate IsSpace(c: char) {
    c == ' ' || 9 <= c as int <= 13
  }

  predicate AllSpace(s: string) {
    forall i :: 0 <= i < |s| ==> IsSpace(s[i])
  }

  /** Neither end of `s` is whitespace. */
  predicate Tight(s: string) {
    s == [] || (!IsSpace(s[0]) && !IsSpace(s[|s| - 1]))
  }

  /** `s` with leading and trailing whitespace removed. */
  function Trimmed(s: string): string
    decreases |s|
  {
    if |s| > 0 && IsSpace(s[0]) then Trimmed(s[1..])
    else if |s| > 0 && IsSpace(s[|s| - 1]) then Trimmed(s[..|s| - 1])
    else s
  }

  /** The `trim` lambda: skip whitespace from the front, then from the back. */
  method Trim(str: string) returns (r: string)
    ensures r == Trimmed(str)
  {
    var a := 0;
    while a < |str| && IsSpace(str[a])
      invariant 0 <= a <= |str|
      invariant Trimmed(str[a..]) == Trimmed(str)
    {
      assert str[a..][1..] == str[a + 1..];
      a := a + 1;
    }
    var b := |str|;
    assert str[a..b] == str[a..];
    while b > a && IsSpace(str[b - 1])
      invariant a <= b <= |str|
      invariant a < |str| ==> !IsSpace(str[a])
      invariant Trimmed(str[a..b]) == Trimmed(str)
    {
      assert str[a..b][..b - 1 - a] == str[a..b - 1];
      b := b - 1;
    }
    r := str[a..b];
  }

  /** The result of trimming has no whitespace at either end. */
  lemma {:induction false} TrimmedTight(s: string)
    ensures Tight(Trimmed(s))
    decreases |s|
  {
    if |s| > 0 && IsSpace(s[0]) {
      TrimmedTight(s[1..]);
    } else if |s| > 0 && IsSpace(s[|s| - 1]) {
      TrimmedTight(s[..|s| - 1]);
    }
  }

  /** Every char of `s` outside the index range [i, j) is whitespace. */
  predicate SpaceOutside(s: string, i: int, j: int) {
    forall k :: 0 <= k < |s| && !(i <= k < j) ==> IsSpace(s[k])
  }

  /** The bounds the two `trim` loops stop at. */
  lemma {:induction false} TrimBounds(s: string) returns (i: nat, j: nat)
    ensures i <= j <= |s| && Trimmed(s) == s[i..j] && SpaceOutside(s, i, j)
    decreases |s|
  {
    if |s| > 0 && IsSpace(s[0]) {
      var t := s[1..];
      var i', j' := TrimBounds(t);
      i, j := i' + 1, j' + 1;
      assert t[i'..j'] == s[i..j];
      forall k | 0 <= k < |s| && !(i <= k < j)
        ensures IsSpace(s[k])
      {
        if k > 0 {
          assert s[k] == t[k - 1];
        }
      }
    } else if |s| > 0 && IsSpace(s[|s| - 1]) {
      var t := s[..|s| - 1];
      i, j := TrimBounds(t);
      assert t[i..j] == s[i..j];
      forall k | 0 <= k < |s| && !(i <= k < j)
        ensures IsSpace(s[k])
      {
        if k < |s| - 1 {
          assert s[k] == t[k];
        }
      }
    } else {
      i, j := 0, |s|;
      assert s[0..|s|] == s;
    }
  }

  /** Trimming removes only whitespace, and only from the two ends. */
  lemma TrimmedInfix(s: string)
    ensures exists i, j :: 0 <= i <= j <= |s| && Trimmed(s) == s[i..j] && SpaceOutside(s, i, j)
  {
    var i, j := TrimBounds(s);
  }

  /** A string with no whitespace at either end is its own trim. */
  lemma TrimmedOfTight(s: string)
    requires Tight(s)
    ensures Trimmed(s) == s
  {
  }

  /** Trimming twice is trimming once. */
  lemma TrimmedIdempotent(s: string)
    ensures Trimmed(Trimmed(s)) == Trimmed(s)
  {
    TrimmedTight(s);
    TrimmedOfTight(Trimmed(s));
  }

  /** The trim is empty exactly when the string is all whitespace. */
  lemma {:induction false} TrimmedEmptyIff(s: string)
    ensures Trimmed(s) == [] <==> AllSpace(s)
    decreases |s|
  {
    if |s| > 0 && IsSpace(s[0]) {
      TrimmedEmptyIff(s[1..]);
      assert AllSpace(s) <==> AllSpace(s[1..]) by {
        if AllSpace(s[1..]) {
          forall i | 1 <= i < |s| ensures IsSpace(s[i]) { assert s[i] == s[1..][i - 1]; }
        }
      }
    } else if |s| > 0 && IsSpace(s[|s| - 1]) {
      TrimmedEmptyIff(s[..|s| - 1]);
      assert s[..|s| - 1][0] == s[0];
    }
  }

  // ---------------------------------------------------------------------
  // normalizeExpression
  // ---------------------------------------------------------------------

  /** What `normalizeExpression(input)` returns. */
  function Normalized(input: string): string {
    var s := AsciiSymbols(input);
    match Find(s, "=", 0)
    case None => s
    case Some(eq) => "(" + Trimmed(s[..eq]) + ")-(" + Trimmed(s[eq + 1..]) + ")"
  }

  /** The six `replaceAll` calls that open `normalizeExpression`. */
  method ReplaceSymbols(input: string) returns (s: string)
    ensures s == AsciiSymbols(input)
    ensures Ascii(input) ==> s == input
  {
    SymbolRulesWellFormed();
    ghost var rules := SymbolRules;
    s := input;
    ApplyRulesStep(s, rules, 0);
    s := ReplaceAll(s, PiSign, "pi");
    ApplyRulesStep(s, rules, 1);
    s := ReplaceAll(s, CapitalPhi, "phi");
    ApplyRulesStep(s, rules, 2);
    s := ReplaceAll(s, SmallPhi, "phi");
    ApplyRulesStep(s, rules, 3);
    s := ReplaceAll(s, MiddleDot, "*");
    ApplyRulesStep(s, rules, 4);
    s := ReplaceAll(s, TimesSign, "*");
    ApplyRulesStep(s, rules, 5);
    s := ReplaceAll(s, MinusSign, "-");
    assert rules[6..] == [] && rules[0..] == rules;
    if Ascii(input) {
      AsciiSymbolsIdentity(input);
    }
  }

  method NormalizeExpression(input: string) returns (s: string)
    ensures s == Normalized(input)
  {
    s := ReplaceSymbols(input);
    var eq := Find(s, "=", 0);
    if eq.Some? {
      var lhs := s[..eq.value];
      var rhs := s[eq.value + 1..];
      lhs := Trim(lhs);
      rhs := Trim(rhs);
      s := "(" + lhs + ")-(" + rhs + ")";
    }
  }

  /** Without `=`, normalisation only rewrites the symbols, and none of them is left. */
  lemma NormalizedPlain(input: string)
    requires '=' !in AsciiSymbols(input)
    ensures Normalized(input) == AsciiSymbols(input)
    ensures SymbolFree(Normalized(input))
  {
    FindChar(AsciiSymbols(input), '=');
    AsciiSymbolsClean(input);
  }

  /**
   * An equation `lhs = rhs` becomes `(lhs)-(rhs)`, split at the first `=`
   * with both sides trimmed; any later `=` stays in the right-hand side.
   */
  lemma NormalizedEquation(input: string, eq: nat)
    requires eq < |AsciiSymbols(input)| && AsciiSymbols(input)[eq] == '='
    requires '=' !in AsciiSymbols(input)[..eq]
    ensures Normalized(input) ==
      "(" + Trimmed(AsciiSymbols(input)[..eq]) + ")-(" + Trimmed(AsciiSymbols(input)[eq + 1..]) + ")"
  {
    FindChar(AsciiSymbols(input), '=');
  }

  // ---------------------------------------------------------------------
  // parseParamAssignment
  // ---------------------------------------------------------------------

  /**
   * The environment after `parseParamAssignment(line, env)`; `stod` is the
   * C++ library conversion, `None` where it throws.
   */
  function Assigned(line: string, env: map<string, Double>, stod: string -> Option<Double>): map<string, Double> {
    match Find(line, "=", 0)
    case None => env
    case Some(eq) =>
      var name := Trimmed(line[..eq]);
      var val := Trimmed(line[eq + 1..]);
      if name == [] || val == [] then env
      else
        match stod(val)
        case None => env
        case Some(d) => env[name := d]
  }

  /** A line without `=` changes nothing. */
  lemma AssignedNoEquals(line: string, env: map<string, Double>, stod: string -> Option<Double>)
    requires '=' !in line
    ensures Assigned(line, env, stod) == env
  {
    FindChar(line, '=');
  }

  /**
   * With the first `=` at `eq`: an all-blank name or value, or a value
   * `stod` rejects, changes nothing; otherwise exactly the trimmed name is
   * bound to the converted value and every other key keeps its binding.
   */
  lemma AssignedAt(line: string, eq: nat, env: map<string, Double>, stod: string -> Option<Double>)
    requires eq < |line| && line[eq] == '=' && '=' !in line[..eq]
    ensures AllSpace(line[..eq]) || AllSpace(line[eq + 1..]) || stod(Trimmed(line[eq + 1..])).None?
            ==> Assigned(line, env, stod) == env
    ensures !AllSpace(line[..eq]) && !AllSpace(line[eq + 1..]) && stod(Trimmed(line[eq + 1..])).Some?
            ==> Assigned(line, env, stod) == env[Trimmed(line[..eq]) := stod(Trimmed(line[eq + 1..])).value]
  {
    FindChar(line, '=');
    TrimmedEmptyIff(line[..eq]);
    TrimmedEmptyIff(line[eq + 1..]);
  }

  /** Only one key can change, and none disappears. */
  lemma AssignedFrame(line: string, env: map<string, Double>, stod: string -> Option<Double>, k: string)
    requires k in env
    requires Find(line, "=", 0).None? || k != Trimmed(line[..Find(line, "=", 0).value])
    ensures k in Assigned(line, env, stod) && Assigned(line, env, stod)[k] == env[k]
  {
  }

  // ---------------------------------------------------------------------
  // Zoom and sampling step
  // ---------------------------------------------------------------------

  const InitialScale: real := 50.0
  const MinScale: real := 1.0
  const MaxScale: real := 4000.0
  const ZoomFactor: real := 1.12
  const InitialInputs: nat := 3
  const MaxInputs: nat := 15

  /** The scale a wheel event leaves: one factor in or out, then clamped. */
  function ZoomedScale(scale: real, delta: real): (r: real)
    ensures MinScale <= r <= MaxScale
  {
    var s := if delta > 0.0 then scale * ZoomFactor else scale / ZoomFactor;
    var s := if s < MinScale then MinScale else s;
    if s > MaxScale then MaxScale else s
  }

  /** Zooming in moves towards the largest scale, zooming out towards the smallest. */
  lemma ZoomDirection(scale: real, delta: real)
    requires MinScale <= scale <= MaxScale
    ensures delta > 0.0 ==> scale <= ZoomedScale(scale, delta)
    ensures delta <= 0.0 ==> ZoomedScale(scale, delta) <= scale
  {
  }

  /** Away from the bounds, one notch in and one notch out come back to the same scale. */
  lemma ZoomRoundTrip(scale: real)
    requires MinScale <= scale && scale * ZoomFactor <= MaxScale
    ensures ZoomedScale(ZoomedScale(scale, 1.0), -1.0) == scale
  {
  }

  /** `computeAdaptiveStep(s)`: half a pixel in world units, at least 0.001. */
  function AdaptiveStep(s: real): (r: real)
    requires s != 0.0
    ensures r >= 0.001 && r >= 1.0 / s * 0.5
    ensures r == 0.001 || r == 1.0 / s * 0.5
  {
    if 0.001 < 1.0 / s * 0.5 then 1.0 / s * 0.5 else 0.001
  }

  /** Within the zoom range the step is at most half a world unit, and it bottoms out from scale 500 on. */
  lemma AdaptiveStepRange(s: real)
    requires MinScale <= s <= MaxScale
    ensures AdaptiveStep(s) <= 0.5
    ensures AdaptiveStep(s) == 0.001 <==> s >= 500.0
  {
    var h := 1.0 / s * 0.5;
    assert h * s == 0.5;
    if s >= 500.0 {
      assert h <= 0.001;
    } else {
      assert h > 0.001;
    }
  }

  // ---------------------------------------------------------------------
  // Enter
  // ---------------------------------------------------------------------

  /** What Enter commits to a slot. */
  datatype Plot = Plot(rpn: seq<Token>, graph: seq<Pt>, centerX: real, centerY: real)

  /**
   * The postfix form of an input line, or `None` when `tokenize` or
   * `shuntingYard` throws.
   */
  function Compiled(input: string): Option<seq<Token>> {
    match Lexed(Normalized(input))
    case Err(_) => None
    case Ok(tokens) =>
      match Postfix(tokens)
      case Err(_) => None
      case Ok(rpn) => Some(rpn)
  }

  /** The graph Enter computes for a postfix form: the visible x range, sampled at the adaptive step. */
  function EnterGraph(lib: MathLib, rpn: seq<Token>, scale: real, env: map<string, Double>,
                      graphW: int, graphH: int, panX: real, panY: real): seq<Pt>
    requires MinScale <= scale <= MaxScale
  {
    var range := EnterRange(graphW, scale);
    GraphFromRPN(lib, rpn, scale, range.0, range.1, AdaptiveStep(scale),
                 graphW as real / 2.0 + panX, graphH as real / 2.0 + panY, graphW, graphH, Some(env))
  }

  /** The x range Enter samples: `xRange = (graphW / 2) / scale`, then `[-xRange, xRange]`. */
  function EnterRange(graphW: int, scale: real): (real, real)
    requires scale != 0.0
  {
    var xRange := (graphW as real / 2.0) / scale;
    (-xRange, xRange)
  }

  /**
   * The outcome of pressing Enter on `input`: the graph over the visible
   * x range, or `None` when a stage throws or the graph comes out empty,
   * which keeps the slot as it was.
   */
  function EnterOutcome(lib: MathLib, input: string, scale: real, env: map<string, Double>,
                        graphW: int, graphH: int, panX: real, panY: real): Option<Plot>
    requires MinScale <= scale <= MaxScale
  {
    match Compiled(input)
    case None => None
    case Some(rpn) =>
      var graph := EnterGraph(lib, rpn, scale, env, graphW, graphH, panX, panY);
      if graph == [] then None
      else Some(Plot(rpn, graph, graphW as real / 2.0 + panX, graphH as real / 2.0 + panY))
  }

  /**
   * A failing stage keeps the slot; a commit carries a non-empty graph of
   * a non-empty postfix form of the input, centred on the graph area.
   */
  lemma EnterCommits(lib: MathLib, input: string, scale: real, env: map<string, Double>,
                     graphW: int, graphH: int, panX: real, panY: real)
    requires MinScale <= scale <= MaxScale
    ensures Lexed(Normalized(input)).Err? ==> EnterOutcome(lib, input, scale, env, graphW, graphH, panX, panY).None?
    ensures Lexed(Normalized(input)).Ok? && Postfix(Lexed(Normalized(input)).value).Err?
            ==> EnterOutcome(lib, input, scale, env, graphW, graphH, panX, panY).None?
    ensures EnterOutcome(lib, input, scale, env, graphW, graphH, panX, panY).Some? ==>
      var p := EnterOutcome(lib, input, scale, env, graphW, graphH, panX, panY).value;
      p.graph != [] && p.rpn != [] && Compiled(input) == Some(p.rpn) &&
      p.centerX == graphW as real / 2.0 + panX && p.centerY == graphH as real / 2.0 + panY
  {
  }

  lemma {:induction false} EmptyStaysEmpty(rules: seq<Rule>)
    requires WellFormed(rules)
    ensures ApplyRules("", rules) == ""
    decreases |rules|
  {
    if rules != [] {
      assert Find("", rules[0].from, 0).None?;
      EmptyStaysEmpty(rules[1..]);
    }
  }

  /** An empty line normalises to itself and compiles to an empty postfix form. */
  lemma CompiledEmpty()
    ensures Normalized("") == "" && Compiled("") == Some([])
  {
    SymbolRulesWellFormed();
    EmptyStaysEmpty(SymbolRules);
    assert AsciiSymbols("") == "";
    assert Find("", "=", 0).None?;
    assert Lexed("") == Ok([] + [EndToken]);
    assert [] + [EndToken] == [EndToken];
    assert EndToken.kind == End;
    assert ShuntStep(EndToken, [], []) == Ok(([], []));
    assert [EndToken][1..] == [];
    assert Postfix([EndToken]) == ShuntFrom([], [], []) == Ok([]);
  }

  /** An empty input box plots nothing, so Enter keeps the previous graph. */
  lemma EnterEmptyInput(lib: MathLib, scale: real, env: map<string, Double>,
                        graphW: int, graphH: int, panX: real, panY: real)
    requires MinScale <= scale <= MaxScale
    ensures EnterOutcome(lib, "", scale, env, graphW, graphH, panX, panY).None?
  {
    CompiledEmpty();
  }

  /** `normalizeExpression`, `tokenize` and `shuntingYard` in turn; `None` where one throws. */
  method CompileLine(input: string) returns (r: Option<seq<Token>>)
    ensures r == Compiled(input)
  {
    var expr := NormalizeExpression(input);
    var tokens := Tokenize(expr);
    if tokens.Err? {
      return None;
    }
    var rpn := ShuntingYard(tokens.value);
    if rpn.Err? {
      return None;
    }
    return Some(rpn.value);
  }

  /**
   * The body of the Enter handler's `try` block: normalise, tokenize,
   * parse and graph the input over the visible x range.
   */
  method PlotLine(lib: MathLib, input: string, scale: real, env: map<string, Double>,
                  graphW: int, graphH: int, panX: real, panY: real) returns (o: Option<Plot>)
    requires MinScale <= scale <= MaxScale
    ensures o == EnterOutcome(lib, input, scale, env, graphW, graphH, panX, panY)
  {
    var rpn := CompileLine(input);
    if rpn.None? {
      return None;
    }
    var graph := GraphLine(lib, rpn.value, scale, env, graphW, graphH, panX, panY);
    if graph == [] {
      return None;
    }
    return Some(Plot(rpn.value, graph, graphW as real / 2.0 + panX, graphH as real / 2.0 + panY));
  }

  /** The graphing half of the Enter handler: the x range, the step and `computeGraphFromRPN`. */
  method GraphLine(lib: MathLib, rpn: seq<Token>, scale: real, env: map<string, Double>,
                   graphW: int, graphH: int, panX: real, panY: real) returns (graph: seq<Pt>)
    requires MinScale <= scale <= MaxScale
    ensures graph == EnterGraph(lib, rpn, scale, env, graphW, graphH, panX, panY)
  {
    var centerX := graphW as real / 2.0 + panX;
    var centerY := graphH as real / 2.0 + panY;
    var xRange := (graphW as real / 2.0) / scale;
    var xMin := -xRange;
    var xMax := xRange;
    assert EnterRange(graphW, scale) == (xMin, xMax);
    var step := AdaptiveStep(scale);
    graph := ComputeGraphFromRPN(lib, rpn, scale, xMin, xMax, step, centerX, centerY, graphW, graphH, Some(env));
  }

  // ---------------------------------------------------------------------
  // computeAllGraphs
  // ---------------------------------------------------------------------

  /**
   * The graph `computeAllGraphs` gives one slot: nothing for an empty
   * program, otherwise the x range the screen shows around (centerX, centerY),
   * sampled at the adaptive step.
   */
  function SlotGraph(lib: MathLib, rpn: seq<Token>, scale: real, env: map<string, Double>,
                     graphW: int, graphH: int, centerX: real, centerY: real): seq<Pt>
    requires MinScale <= scale <= MaxScale
  {
    if rpn == [] then []
    else
      var range := VisibleRange(graphW, scale, centerX);
      GraphFromRPN(lib, rpn, scale, range.0, range.1, AdaptiveStep(scale), centerX, centerY, graphW, graphH, Some(env))
  }

  /** The x range a recompute samples: the screen's width seen around centerX. */
  function VisibleRange(graphW: int, scale: real, centerX: real): (real, real)
    requires scale != 0.0
  {
    ((0.0 - centerX) / scale, (graphW as real - centerX) / scale)
  }

  /** Every slot's graph after `computeAllGraphs`. */
  function Regraphed(lib: MathLib, rpns: seq<seq<Token>>, scale: real, env: map<string, Double>,
                     graphW: int, graphH: int, centerX: real, centerY: real): (r: seq<seq<Pt>>)
    requires MinScale <= scale <= MaxScale
    ensures |r| == |rpns|
    ensures forall i :: 0 <= i < |rpns| && rpns[i] == [] ==> r[i] == []
  {
    seq(|rpns|, i requires 0 <= i < |rpns| => SlotGraph(lib, rpns[i], scale, env, graphW, graphH, centerX, centerY))
  }

  /** A slot's centre after `computeAllGraphs`: the new centre where there is a program, the old one elsewhere. */
  function Recentered(rpns: seq<seq<Token>>, centers: seq<real>, c: real): (r: seq<real>)
    requires |centers| == |rpns|
    ensures |r| == |rpns|
  {
    seq(|rpns|, i requires 0 <= i < |rpns| => if rpns[i] == [] then centers[i] else c)
  }

  /**
   * A recompute around the centre of the graph area samples exactly Enter's
   * x range when there is no horizontal pan, and a different one otherwise.
   * With equal ranges and equal centres, `SlotGraph` and `EnterGraph` make
   * the same `GraphFromRPN` call.
   */
  lemma RecomputeRangeIsEnterRange(graphW: int, scale: real, panX: real)
    requires MinScale <= scale <= MaxScale
    ensures VisibleRange(graphW, scale, graphW as real / 2.0 + panX) == EnterRange(graphW, scale) <==> panX == 0.0
  {
  }

  /** The program's interactive state: zoom, parameters and the per-input graph slots. */
  class Session {
    var scale: real
    var env: map<string, Double>
    var lastGraph: seq<seq<Pt>>
    var lastExpr: seq<string>
    var lastRPN: seq<seq<Token>>
    var lastCenterX: seq<real>
    var lastCenterY: seq<real>

    /** The scale stays in the zoom range and the slot vectors run in step. */
    predicate Valid()
      reads this
    {
      MinScale <= scale <= MaxScale &&
      |lastExpr| == |lastGraph| && |lastRPN| == |lastGraph| &&
      |lastCenterX| == |lastGraph| && |lastCenterY| == |lastGraph| && |lastGraph| <= MaxInputs
    }

    /** The start-up state: scale 50, no parameters, three empty input slots. */
    constructor ()
      ensures Valid() && scale == InitialScale && env == map[]
      ensures lastGraph == [[], [], []] && lastExpr == ["", "", ""] && lastRPN == [[], [], []]
      ensures lastCenterX == [0.0, 0.0, 0.0] && lastCenterY == [0.0, 0.0, 0.0]
    {
      scale := InitialScale;
      env := map[];
      lastGraph := [];
      lastExpr := [];
      lastRPN := [];
      lastCenterX := [];
      lastCenterY := [];
      new;
      var i := 0;
      while i < InitialInputs
        invariant 0 <= i <= InitialInputs
        invariant lastGraph == seq(i, _ => []) && lastExpr == seq(i, _ => "") && lastRPN == seq(i, _ => [])
        invariant lastCenterX == seq(i, _ => 0.0) && lastCenterY == seq(i, _ => 0.0)
        invariant scale == InitialScale && env == map[]
      {
        AddInputBox();
        i := i + 1;
      }
    }

    /** `addInputBox`: one more empty slot, up to fifteen. */
    method AddInputBox()
      modifies this
      ensures scale == old(scale) && env == old(env)
      ensures if |old(lastGraph)| >= MaxInputs then
                lastGraph == old(lastGraph) && lastExpr == old(lastExpr) && lastRPN == old(lastRPN) &&
                lastCenterX == old(lastCenterX) && lastCenterY == old(lastCenterY)
              else
                lastGraph == old(lastGraph) + [[]] && lastExpr == old(lastExpr) + [""] &&
                lastRPN == old(lastRPN) + [[]] &&
                lastCenterX == old(lastCenterX) + [0.0] && lastCenterY == old(lastCenterY) + [0.0]
      ensures old(Valid()) ==> Valid()
    {
      if |lastGraph| >= MaxInputs {
        return;
      }
      lastGraph := lastGraph + [[]];
      lastExpr := lastExpr + [""];
      lastRPN := lastRPN + [[]];
      lastCenterX := lastCenterX + [0.0];
      lastCenterY := lastCenterY + [0.0];
    }

    /**
     * `computeAllGraphs(centerX, centerY)`: every slot with a program is
     * graphed again around the given centre; a slot without one is cleared.
     * The texts and programs stay.
     */
    method ComputeAllGraphs(lib: MathLib, graphW: int, graphH: int, centerX: real, centerY: real)
      requires Valid()
      modifies this
      ensures Valid()
      ensures scale == old(scale) && env == old(env) && lastExpr == old(lastExpr) && lastRPN == old(lastRPN)
      ensures lastGraph == Regraphed(lib, lastRPN, scale, env, graphW, graphH, centerX, centerY)
      ensures lastCenterX == Recentered(lastRPN, old(lastCenterX), centerX)
      ensures lastCenterY == Recentered(lastRPN, old(lastCenterY), centerY)
    {
      var step := AdaptiveStep(scale);
      var xMin := (0.0 - centerX) / scale;
      var xMax := (graphW as real - centerX) / scale;
      for i := 0 to |lastRPN|
        invariant Valid()
        invariant scale == old(scale) && env == old(env) && lastExpr == old(lastExpr) && lastRPN == old(lastRPN)
        invariant forall j :: 0 <= j < i ==> lastGraph[j] == SlotGraph(lib, lastRPN[j], scale, env, graphW, graphH, centerX, centerY)
        invariant forall j :: 0 <= j < i ==> lastCenterX[j] == (if lastRPN[j] == [] then old(lastCenterX)[j] else centerX)
        invariant forall j :: 0 <= j < i ==> lastCenterY[j] == (if lastRPN[j] == [] then old(lastCenterY)[j] else centerY)
        invariant forall j :: i <= j < |lastRPN| ==> lastCenterX[j] == old(lastCenterX)[j] && lastCenterY[j] == old(lastCenterY)[j]
      {
        if lastRPN[i] == [] {
          lastGraph := lastGraph[i := []];
          continue;
        }
        var g := ComputeGraphFromRPN(lib, lastRPN[i], scale, xMin, xMax, step, centerX, centerY, graphW, graphH, Some(env));
        lastGraph := lastGraph[i := g];
        lastCenterX := lastCenterX[i := centerX];
        lastCenterY := lastCenterY[i := centerY];
      }
    }

    /**
     * A mouse-wheel event; it only acts when the pointer is over the graph
     * area, where it zooms and then recomputes every slot around the centre
     * of the graph area.
     */
    method Zoom(lib: MathLib, delta: real, overGraph: bool, graphW: int, graphH: int, panX: real, panY: real)
      requires Valid()
      modifies this
      ensures Valid()
      ensures scale == if overGraph then ZoomedScale(old(scale), delta) else old(scale)
      ensures env == old(env) && lastExpr == old(lastExpr) && lastRPN == old(lastRPN)
      ensures overGraph ==>
                var cx := graphW as real / 2.0 + panX;
                var cy := graphH as real / 2.0 + panY;
                lastGraph == Regraphed(lib, lastRPN, scale, env, graphW, graphH, cx, cy) &&
                lastCenterX == Recentered(lastRPN, old(lastCenterX), cx) &&
                lastCenterY == Recentered(lastRPN, old(lastCenterY), cy)
      ensures !overGraph ==> lastGraph == old(lastGraph) && lastCenterX == old(lastCenterX) && lastCenterY == old(lastCenterY)
    {
      if overGraph {
        ZoomScale(delta);
        ComputeAllGraphs(lib, graphW, graphH, graphW as real / 2.0 + panX, graphH as real / 2.0 + panY);
      }
    }

    /** The scale update of a wheel event over the graph area: one factor in or out, then the clamp. */
    method ZoomScale(delta: real)
      requires Valid()
      modifies this
      ensures Valid()
      ensures scale == ZoomedScale(old(scale), delta)
      ensures env == old(env) && lastGraph == old(lastGraph) && lastExpr == old(lastExpr) && lastRPN == old(lastRPN)
      ensures lastCenterX == old(lastCenterX) && lastCenterY == old(lastCenterY)
    {
      if delta > 0.0 {
        scale := scale * ZoomFactor;
      } else {
        scale := scale / ZoomFactor;
      }
      if scale < MinScale {
        scale := MinScale;
      }
      if scale > MaxScale {
        scale := MaxScale;
      }
    }

    /** Enter in a parameter box: `parseParamAssignment(line, env)`. */
    method ParseParamAssignment(line: string, stod: string -> Option<Double>)
      requires Valid()
      modifies this
      ensures Valid()
      ensures env == Assigned(line, old(env), stod)
      ensures scale == old(scale) && lastGraph == old(lastGraph) && lastExpr == old(lastExpr) && lastRPN == old(lastRPN)
      ensures lastCenterX == old(lastCenterX) && lastCenterY == old(lastCenterY)
    {
      var eq := Find(line, "=", 0);
      if eq.None? {
        return;
      }
      var name := line[..eq.value];
      var val := line[eq.value + 1..];
      name := Trim(name);
      val := Trim(val);
      if name == [] || val == [] {
        return;
      }
      var d := stod(val);
      if d.Some? {
        env := env[name := d.value];
      }
    }

    /**
     * Enter in input box `active`: normalise, tokenize, parse and graph the
     * input over the visible x range; commit the slot only when no stage
     * threw and the graph is non-empty.
     */
    method Enter(lib: MathLib, active: nat, input: string, graphW: int, graphH: int, panX: real, panY: real)
      requires Valid() && active < |lastGraph|
      modifies this
      ensures Valid()
      ensures scale == old(scale) && env == old(env)
      ensures match EnterOutcome(lib, input, old(scale), old(env), graphW, graphH, panX, panY)
        case None =>
          lastGraph == old(lastGraph) && lastExpr == old(lastExpr) && lastRPN == old(lastRPN) &&
          lastCenterX == old(lastCenterX) && lastCenterY == old(lastCenterY)
        case Some(p) =>
          lastGraph == old(lastGraph)[active := p.graph] && lastExpr == old(lastExpr)[active := input] &&
          lastRPN == old(lastRPN)[active := p.rpn] &&
          lastCenterX == old(lastCenterX)[active := p.centerX] && lastCenterY == old(lastCenterY)[active := p.centerY]
    {
      var o := PlotLine(lib, input, scale, env, graphW, graphH, panX, panY);
      if o.Some? {
        lastGraph := lastGraph[active := o.value.graph];
        lastExpr := lastExpr[active := input];
        lastRPN := lastRPN[active := o.value.rpn];
        lastCenterX := lastCenterX[active := o.value.centerX];
        lastCenterY := lastCenterY[active := o.value.centerY];
      }
    }
  }
}
