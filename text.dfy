/** String operations the tracker scripts borrow from JavaScript: `includes`,
    `startsWith`, `split`, `join`, `toLowerCase` on URL paths, the few regular
    expression replacements they use, and the comparison `<` / `>` on strings. */
module Text {

  predicate IsDigit(c: char) { '0' <= c <= '9' }

  predicate AllDigits(s: string) { forall i :: 0 <= i < |s| ==> IsDigit(s[i]) }

  /** ASCII lower-casing. A URL `pathname` is percent-encoded by the URL parser,
      so it only holds ASCII characters, on which `toLowerCase` is exactly this. */
  function LowerChar(c: char): char {
    if 'A' <= c <= 'Z' then (c as int + 32) as char else c
  }

  function Lower(s: string): (r: string)
    ensures |r| == |s|
    ensures forall i :: 0 <= i < |s| ==> r[i] == LowerChar(s[i])
  {
    if s == [] then [] else [LowerChar(s[0])] + Lower(s[1..])
  }

  predicate StartsWith(s: string, p: string) { |p| <= |s| && s[..|p|] == p }

  predicate EndsWith(s: string, p: string) { |p| <= |s| && s[|s| - |p|..] == p }

  /** JavaScript's `s.includes(p)`. */
  predicate Contains(s: string, p: string)
    decreases |s|
  {
    StartsWith(s, p) || (|s| > 0 && Contains(s[1..], p))
  }

  lemma {:induction false} ContainsAt(s: string, p: string, i: nat)
    requires i + |p| <= |s| && s[i..i + |p|] == p
    ensures Contains(s, p)
    decreases i
  {
    if i > 0 {
      assert s[1..][i - 1..i - 1 + |p|] == s[i..i + |p|];
      ContainsAt(s[1..], p, i - 1);
    }
  }

  lemma {:induction false} ContainsSuffix(a: string, b: string, p: string)
    requires Contains(b, p)
    ensures Contains(a + b, p)
    decreases |a|
  {
    if a != [] {
      assert (a + b)[1..] == a[1..] + b;
      ContainsSuffix(a[1..], b, p);
      assert |a + b| > 0 && Contains((a + b)[1..], p);
    } else {
      assert a + b == b;
    }
  }

  lemma {:induction false} ContainsPrefix(a: string, b: string, p: string)
    requires Contains(a, p)
    ensures Contains(a + b, p)
    decreases |a|
  {
    if StartsWith(a, p) {
      assert (a + b)[..|p|] == a[..|p|];
    } else {
      assert (a + b)[1..] == a[1..] + b;
      ContainsPrefix(a[1..], b, p);
    }
  }

  /** An occurrence of `p` in `s` has a position. */
  lemma {:induction false} ContainsWitness(s: string, p: string) returns (i: nat)
    requires Contains(s, p)
    ensures i + |p| <= |s| && s[i..i + |p|] == p
    decreases |s|
  {
    if StartsWith(s, p) {
      i := 0;
    } else {
      var j := ContainsWitness(s[1..], p);
      assert s[1..][j..j + |p|] == s[j + 1..j + 1 + |p|];
      i := j + 1;
    }
  }

  /** Whatever contains `a + b` contains `a` and contains `b`. */
  lemma ContainsParts(s: string, a: string, b: string)
    requires Contains(s, a + b)
    ensures Contains(s, a) && Contains(s, b)
  {
    var i := ContainsWitness(s, a + b);
    assert s[i..i + |a|] == (a + b)[..|a|] == a;
    assert s[i + |a|..i + |a| + |b|] == (a + b)[|a|..] == b;
    ContainsAt(s, a, i);
    ContainsAt(s, b, i + |a|);
  }

  /** Index of the first occurrence of `c`, or `|s|` when there is none. */
  function IndexOf(s: string, c: char): (i: nat)
    ensures i <= |s|
    ensures i < |s| ==> s[i] == c
    ensures forall j :: 0 <= j < i ==> s[j] != c
  {
    if s == [] then 0 else if s[0] == c then 0 else 1 + IndexOf(s[1..], c)
  }

  /** JavaScript's `s.split(c)` for a one-character separator: never empty,
      empty pieces kept. */
  function Split(s: string, c: char): (parts: seq<string>)
    ensures |parts| >= 1
    ensures forall k :: 0 <= k < |parts| ==> c !in parts[k]
    ensures Join(parts, [c]) == s
    decreases |s|
  {
    var i := IndexOf(s, c);
    if i == |s| then [s]
    else
      var rest := Split(s[i + 1..], c);
      assert Join([s[..i]] + rest, [c]) == s[..i] + [c] + Join(rest, [c]) by { JoinCons(s[..i], rest, [c]); }
      assert s == s[..i] + [c] + s[i + 1..];
      [s[..i]] + rest
  }

  /** JavaScript's `parts.join(sep)`. */
  function Join(parts: seq<string>, sep: string): string {
    if parts == [] then "" else if |parts| == 1 then parts[0]
    else parts[0] + sep + Join(parts[1..], sep)
  }

  lemma JoinCons(x: string, rest: seq<string>, sep: string)
    requires rest != []
    ensures Join([x] + rest, sep) == x + sep + Join(rest, sep)
  {
    assert ([x] + rest)[1..] == rest;
  }

  function RemoveChar(s: string, c: char): (r: string)
    ensures c !in r
  {
    if s == [] then [] else (if s[0] == c then [] else [s[0]]) + RemoveChar(s[1..], c)
  }

  lemma {:induction false} SplitOfPlain(s: string, c: char)
    requires c !in s
    ensures Split(s, c) == [s]
  {
    assert IndexOf(s, c) == |s|;
  }

  /** Splitting a join undoes it when no piece holds the separator. */
  lemma {:induction false} SplitJoin(parts: seq<string>, c: char)
    requires |parts| >= 1
    requires forall k :: 0 <= k < |parts| ==> c !in parts[k]
    ensures Split(Join(parts, [c]), c) == parts
    decreases |parts|
  {
    if |parts| == 1 {
      SplitOfPlain(parts[0], c);
    } else {
      var s := Join(parts, [c]);
      var rest := Join(parts[1..], [c]);
      assert s == parts[0] + [c] + rest;
      var i := |parts[0]|;
      assert s[i] == c;
      assert forall j :: 0 <= j < i ==> s[j] == parts[0][j];
      assert IndexOf(s, c) == i by {
        IndexOfFirst(s, c, i);
      }
      assert s[..i] == parts[0];
      assert s[i + 1..] == rest;
      SplitJoin(parts[1..], c);
    }
  }

  lemma IndexOfFirst(s: string, c: char, i: nat)
    requires i < |s| && s[i] == c
    requires forall j :: 0 <= j < i ==> s[j] != c
    ensures IndexOf(s, c) == i
  {
  }

  /** The replacement `/_+$/` with '': drop the trailing run of `c`. */
  function TrimTrailing(s: string, c: char): (r: string)
    ensures |r| <= |s| && s[..|r|] == r
    ensures r == [] || r[|r| - 1] != c
    ensures forall i :: |r| <= i < |s| ==> s[i] == c
  {
    if s == [] then [] else if s[|s| - 1] == c then TrimTrailing(s[..|s| - 1], c) else s
  }

  /** The replacement `/(?<=_)_+|_+$/g` with '' for separator `c`: every run of
      `c` shrinks to one `c`, and a run at the very end is removed. */
  function Collapse(s: string, c: char): (r: string) {
    TrimTrailing(Squeeze(s, c), c)
  }

  /** Keep a character unless it is `c` and follows another `c`. */
  function Squeeze(s: string, c: char): (r: string)
    ensures |r| <= |s|
    decreases |s|
  {
    if |s| <= 1 then s
    else if s[0] == c && s[1] == c then Squeeze(s[1..], c)
    else [s[0]] + Squeeze(s[1..], c)
  }

  /** "`cc` occurs in s". */
  predicate HasDouble(s: string, c: char) {
    exists i :: 0 <= i < |s| - 1 && s[i] == c && s[i + 1] == c
  }

  lemma {:induction false} SqueezeHead(s: string, c: char)
    requires |s| >= 1
    ensures |Squeeze(s, c)| >= 1
    ensures Squeeze(s, c)[0] == s[0]
    decreases |s|
  {
    if |s| > 1 && s[0] == c && s[1] == c {
      SqueezeHead(s[1..], c);
    }
  }

  /** After squeezing, no two separators are adjacent. */
  lemma {:induction false} SqueezeNoDouble(s: string, c: char)
    ensures !HasDouble(Squeeze(s, c), c)
    decreases |s|
  {
    if |s| > 1 {
      SqueezeNoDouble(s[1..], c);
      var t := Squeeze(s[1..], c);
      SqueezeHead(s[1..], c);
      if !(s[0] == c && s[1] == c) {
        var r := [s[0]] + t;
        assert r == Squeeze(s, c);
        forall i | 0 <= i < |r| - 1
          ensures !(r[i] == c && r[i + 1] == c)
        {
          if i > 0 { assert r[i] == t[i - 1] && r[i + 1] == t[i]; }
        }
      }
    }
  }

  lemma TrimKeepsNoDouble(s: string, c: char)
    requires !HasDouble(s, c)
    ensures !HasDouble(TrimTrailing(s, c), c)
  {
    var r := TrimTrailing(s, c);
    forall i | 0 <= i < |r| - 1 ensures !(r[i] == c && r[i + 1] == c) {
      assert r[i] == s[i] && r[i + 1] == s[i + 1];
    }
  }

  /** What the key-tail replacement of idealista.js guarantees: no doubled and
      no trailing separator. */
  lemma CollapseShape(s: string, c: char)
    ensures !HasDouble(Collapse(s, c), c)
    ensures Collapse(s, c) == [] || Collapse(s, c)[|Collapse(s, c)| - 1] != c
  {
    SqueezeNoDouble(s, c);
    TrimKeepsNoDouble(Squeeze(s, c), c);
  }

  /** Squeezing a string with no doubled separator changes nothing. */
  lemma {:induction false} SqueezeIdentity(s: string, c: char)
    requires !HasDouble(s, c)
    ensures Squeeze(s, c) == s
    decreases |s|
  {
    if |s| > 1 {
      assert !(s[0] == c && s[1] == c);
      assert !HasDouble(s[1..], c) by {
        forall i | 0 <= i < |s[1..]| - 1 ensures !(s[1..][i] == c && s[1..][i + 1] == c) {
          assert s[1..][i] == s[i + 1] && s[1..][i + 1] == s[i + 2];
        }
      }
      SqueezeIdentity(s[1..], c);
      assert [s[0]] + s[1..] == s;
    }
  }

  /** The trailing-run removal takes off exactly one appended separator from
      a string that does not already end with one. */
  lemma TrimOne(s: string, c: char)
    requires s == [] || s[|s| - 1] != c
    ensures TrimTrailing(s + [c], c) == s
  {
    assert (s + [c])[..|s + [c]| - 1] == s;
  }

  /** Non-empty pieces free of the separator, joined by it: the result has no
      doubled separator and neither starts nor ends with one. */
  lemma {:induction false} JoinNoDouble(parts: seq<string>, c: char)
    requires |parts| >= 1
    requires forall k :: 0 <= k < |parts| ==> parts[k] != [] && c !in parts[k]
    ensures !HasDouble(Join(parts, [c]), c)
    ensures |Join(parts, [c])| >= 1
    ensures Join(parts, [c])[0] != c && Join(parts, [c])[|Join(parts, [c])| - 1] != c
    decreases |parts|
  {
    var p := parts[0];
    assert p != [] && c !in p;
    assert p[0] in p && p[|p| - 1] in p;
    if |parts| > 1 {
      var j := Join(parts[1..], [c]);
      JoinNoDouble(parts[1..], c);
      var r := Join(parts, [c]);
      assert r == p + [c] + j;
      forall i | 0 <= i < |r| - 1 ensures !(r[i] == c && r[i + 1] == c) {
        if i < |p| {
          assert r[i] == p[i] && p[i] in p;
        } else if i > |p| {
          assert r[i] == j[i - |p| - 1] && r[i + 1] == j[i - |p|];
        } else {
          assert r[i + 1] == j[0];
        }
      }
      assert r[0] == p[0];
      assert r[|r| - 1] == j[|j| - 1];
    }
  }

  lemma NoDoubleAppend(j: string, c: char)
    requires !HasDouble(j, c) && (j == [] || j[|j| - 1] != c)
    ensures !HasDouble(j + [c], c)
  {
    var t := j + [c];
    forall i | 0 <= i < |t| - 1 ensures !(t[i] == c && t[i + 1] == c) {
      if i < |j| - 1 { assert t[i] == j[i] && t[i + 1] == j[i + 1]; }
    }
  }

  lemma NoDoublePrepend(t: string, c: char)
    requires !HasDouble(t, c) && (t == [] || t[0] != c)
    ensures !HasDouble([c] + t, c)
  {
    var u := [c] + t;
    forall i | 0 <= i < |u| - 1 ensures !(u[i] == c && u[i + 1] == c) {
      if i == 0 { assert u[1] == t[0]; } else { assert u[i] == t[i - 1] && u[i + 1] == t[i]; }
    }
  }

  /** A well-formed joined string survives the collapse, as does one with a
      separator added at the end; a leading run of separators shrinks to one. */
  lemma CollapseJoin(parts: seq<string>, c: char)
    requires |parts| >= 1
    requires forall k :: 0 <= k < |parts| ==> parts[k] != [] && c !in parts[k]
    ensures Collapse(Join(parts, [c]), c) == Join(parts, [c])
    ensures Collapse(Join(parts, [c]) + [c], c) == Join(parts, [c])
    ensures Collapse([c] + Join(parts, [c]) + [c], c) == [c] + Join(parts, [c])
    ensures Collapse([c, c] + Join(parts, [c]) + [c], c) == [c] + Join(parts, [c])
  {
    var j := Join(parts, [c]);
    JoinNoDouble(parts, c);
    SqueezeIdentity(j, c);
    NoDoubleAppend(j, c);
    SqueezeIdentity(j + [c], c);
    TrimOne(j, c);
    CollapseLead(j, c);
  }

  lemma CollapseLead(j: string, c: char)
    requires |j| >= 1 && !HasDouble(j + [c], c) && j[0] != c && j[|j| - 1] != c
    ensures Collapse([c] + j + [c], c) == [c] + j
    ensures Collapse([c, c] + j + [c], c) == [c] + j
  {
    var t := j + [c];
    NoDoublePrepend(t, c);
    var u := [c] + t;
    SqueezeIdentity(u, c);
    assert [c] + j + [c] == u;
    TrimOne([c] + j, c);
    var v := [c, c] + j + [c];
    assert v[1..] == u;
    assert Squeeze(v, c) == Squeeze(u, c);
  }

  /** A separator in front of another is dropped by the squeeze. */
  lemma {:induction false} SqueezeDrop(a: string, b: string, c: char)
    requires b != [] && b[0] == c
    ensures Squeeze(a + [c] + b, c) == Squeeze(a + b, c)
    decreases |a|
  {
    if a == [] {
      assert [c] + b == a + [c] + b && b == a + b;
      assert ([c] + b)[1..] == b;
    } else {
      var s, t := a + [c] + b, a + b;
      assert s[1..] == a[1..] + [c] + b && t[1..] == a[1..] + b;
      SqueezeDrop(a[1..], b, c);
      assert s[0] == t[0] && s[1] == t[1];
    }
  }

  /** Collapsing only removes separators: every other character survives in
      order. */
  lemma {:induction false} SqueezeKeepsOthers(s: string, c: char)
    ensures RemoveChar(Squeeze(s, c), c) == RemoveChar(s, c)
    decreases |s|
  {
    if |s| > 1 {
      SqueezeKeepsOthers(s[1..], c);
      assert s == [s[0]] + s[1..];
      RemoveCharConcat([s[0]], s[1..], c);
      if !(s[0] == c && s[1] == c) {
        RemoveCharConcat([s[0]], Squeeze(s[1..], c), c);
      }
    }
  }

  lemma {:induction false} RemoveCharConcat(a: string, b: string, c: char)
    ensures RemoveChar(a + b, c) == RemoveChar(a, c) + RemoveChar(b, c)
    decreases |a|
  {
    if a != [] {
      var h: string := if a[0] == c then [] else [a[0]];
      assert (a + b)[0] == a[0];
      assert (a + b)[1..] == a[1..] + b;
      calc {
        RemoveChar(a + b, c);
        h + RemoveChar(a[1..] + b, c);
        { RemoveCharConcat(a[1..], b, c); }
        h + (RemoveChar(a[1..], c) + RemoveChar(b, c));
        (h + RemoveChar(a[1..], c)) + RemoveChar(b, c);
      }
    } else {
      assert a + b == b;
    }
  }

  lemma {:induction false} TrimKeepsOthers(s: string, c: char)
    ensures RemoveChar(TrimTrailing(s, c), c) == RemoveChar(s, c)
    decreases |s|
  {
    if s != [] && s[|s| - 1] == c {
      var p := s[..|s| - 1];
      assert s == p + [c];
      RemoveCharConcat(p, [c], c);
      assert RemoveChar([c], c) == [];
      TrimKeepsOthers(p, c);
    }
  }

  lemma CollapseKeepsOthers(s: string, c: char)
    ensures RemoveChar(Collapse(s, c), c) == RemoveChar(s, c)
  {
    SqueezeKeepsOthers(s, c);
    TrimKeepsOthers(Squeeze(s, c), c);
  }

  /** JavaScript's `s.replace(pat, rep)` with a string pattern: the first
      occurrence only. */
  function ReplaceFirst(s: string, pat: string, rep: string): (r: string)
    requires |pat| > 0
    ensures !Contains(s, pat) ==> r == s
    decreases |s|
  {
    if StartsWith(s, pat) then rep + s[|pat|..]
    else if s == [] then []
    else [s[0]] + ReplaceFirst(s[1..], pat, rep)
  }

  /** A prefix in which the pattern cannot start is copied unchanged. */
  lemma {:induction false} ReplaceFirstAfter(a: string, b: string, pat: string, rep: string)
    requires |pat| >= 2 && pat[1] !in a && (a == [] || a[|a| - 1] != pat[0])
    ensures ReplaceFirst(a + b, pat, rep) == a + ReplaceFirst(b, pat, rep)
    decreases |a|
  {
    if a != [] {
      var s := a + b;
      if |a| >= 2 {
        assert s[1] == a[1];
      } else {
        assert s[0] == a[0];
      }
      assert !StartsWith(s, pat);
      assert s[1..] == a[1..] + b;
      ReplaceFirstAfter(a[1..], b, pat, rep);
    } else {
      assert a + b == b;
    }
  }

  /** `s.replace(/"/g, '""')`. */
  function DoubleQuotes(s: string): (r: string)
    ensures |r| >= |s|
  {
    if s == [] then [] else (if s[0] == '"' then "\"\"" else [s[0]]) + DoubleQuotes(s[1..])
  }

  /** `s.replace(/[^\d]/g, '')`: keep the ASCII digits. */
  function DigitsOf(s: string): (r: string)
    ensures AllDigits(r)
    ensures |r| <= |s|
  {
    if s == [] then [] else (if IsDigit(s[0]) then [s[0]] else []) + DigitsOf(s[1..])
  }

  lemma {:induction false} DigitsOfConcat(a: string, b: string)
    ensures DigitsOf(a + b) == DigitsOf(a) + DigitsOf(b)
    decreases |a|
  {
    if a != [] {
      var h: string := if IsDigit(a[0]) then [a[0]] else [];
      assert (a + b)[0] == a[0];
      assert (a + b)[1..] == a[1..] + b;
      calc {
        DigitsOf(a + b);
        h + DigitsOf(a[1..] + b);
        { DigitsOfConcat(a[1..], b); }
        h + (DigitsOf(a[1..]) + DigitsOf(b));
        (h + DigitsOf(a[1..])) + DigitsOf(b);
      }
    } else {
      assert a + b == b;
    }
  }

  lemma {:induction false} DigitsOfDigits(s: string)
    requires AllDigits(s)
    ensures DigitsOf(s) == s
    decreases |s|
  {
    if s != [] { DigitsOfDigits(s[1..]); }
  }

  /** Value of a string of decimal digits, most significant first. */
  function DecimalValue(s: string): (n: nat)
    requires AllDigits(s)
    decreases |s|
  {
    if s == [] then 0 else DecimalValue(s[..|s| - 1]) * 10 + (s[|s| - 1] as int - '0' as int)
  }

  /** Decimal digits of `n`, without leading zeros ("0" for zero): what
      JavaScript's `n.toString()` gives for a non-negative integer. */
  function NatToDecimal(n: nat): (s: string)
    ensures |s| >= 1 && AllDigits(s)
    ensures DecimalValue(s) == n
    decreases n
  {
    var d := [('0' as int + n % 10) as char];
    if n < 10 then d
    else
      var p := NatToDecimal(n / 10);
      assert (p + d)[..|p + d| - 1] == p;
      p + d
  }

  /** `n.toString()` for any integer. */
  function IntToDecimal(n: int): string {
    if n < 0 then "-" + NatToDecimal(-n) else NatToDecimal(n)
  }

  /** JavaScript's `<` on strings: lexicographic order on characters. */
  predicate StrLt(a: string, b: string)
    decreases |a|
  {
    if a == [] then b != []
    else if b == [] then false
    else a[0] < b[0] || (a[0] == b[0] && StrLt(a[1..], b[1..]))
  }

  lemma {:induction false} StrLtIrreflexive(a: string)
    ensures !StrLt(a, a)
    decreases |a|
  {
    if a != [] { StrLtIrreflexive(a[1..]); }
  }

  lemma {:induction false} StrLtTransitive(a: string, b: string, c: string)
    requires StrLt(a, b) && StrLt(b, c)
    ensures StrLt(a, c)
    decreases |a|
  {
    if a != [] && b != [] && c != [] && a[0] == b[0] && b[0] == c[0] {
      StrLtTransitive(a[1..], b[1..], c[1..]);
    }
  }

  lemma {:induction false} StrLtTotal(a: string, b: string)
    ensures a == b || StrLt(a, b) || StrLt(b, a)
    decreases |a|
  {
    if a != [] && b != [] && a[0] == b[0] {
      StrLtTotal(a[1..], b[1..]);
      if a[1..] == b[1..] { assert a == [a[0]] + a[1..] && b == [b[0]] + b[1..]; }
    }
  }

  lemma StrLtAsymmetric(a: string, b: string)
    requires StrLt(a, b)
    ensures !StrLt(b, a)
  {
    if StrLt(b, a) {
      StrLtTransitive(a, b, a);
      StrLtIrreflexive(a);
    }
  }

  /** The larger of two strings under JavaScript's string order. */
  function StrMax(a: string, b: string): (m: string)
    ensures m == a || m == b
    ensures !StrLt(m, a) && !StrLt(m, b)
  {
    StrLtTotal(a, b);
    if StrLt(a, b) then StrLtAsymmetric(a, b); StrLtIrreflexive(b); b
    else StrLtIrreflexive(a); a
  }
}
