/** The number readers applied to the text of a listing card: the price
    (`parsePrice`) and the floor area (`parseArea`). `parseInt` of a string of
    ASCII digits is its decimal value; `NaN || 0` is 0. */
module Parsing {
  import opened Text
  import opened Records

  /** `parseInt(text.replace(/[^\d]/g, '')) || 0`: every non-digit is dropped
      and the remaining digits are read as one decimal number. */
  function ParsePrice(text: string): (n: nat)
    ensures n == 0 <==> forall i :: 0 <= i < |text| && IsDigit(text[i]) ==> text[i] == '0'
  {
    var d := DigitsOf(text);
    DigitsOfZero(text);
    DecimalValueZero(d);
    if d == [] then 0 else DecimalValue(d)
  }

  /** The digits kept from `s` are all zeros exactly when every digit of `s`
      is a zero. */
  lemma {:induction false} DigitsOfZero(s: string)
    ensures (forall i :: 0 <= i < |DigitsOf(s)| ==> DigitsOf(s)[i] == '0')
        <==> (forall i :: 0 <= i < |s| && IsDigit(s[i]) ==> s[i] == '0')
    decreases |s|
  {
    if s != [] {
      var h: string := if IsDigit(s[0]) then [s[0]] else [];
      var t := DigitsOf(s[1..]);
      assert DigitsOf(s) == h + t;
      DigitsOfZero(s[1..]);
      assert forall i :: 1 <= i < |s| ==> s[i] == s[1..][i - 1];
      assert forall i :: 0 <= i < |t| ==> t[i] == (h + t)[|h| + i];
      if h != [] {
        assert (h + t)[0] == s[0];
      }
    }
  }

  /** A digit string has value zero exactly when all its digits are zeros. */
  lemma {:induction false} DecimalValueZero(d: string)
    requires AllDigits(d)
    ensures DecimalValue(d) == 0 <==> forall i :: 0 <= i < |d| ==> d[i] == '0'
    decreases |d|
  {
    if d != [] {
      var p := d[..|d| - 1];
      DecimalValueZero(p);
      assert forall i :: 0 <= i < |p| ==> p[i] == d[i];
    }
  }

  /** A digit string is worth at least as much as any of its prefixes. */
  lemma {:induction false} DecimalValuePrefix(a: string, b: string)
    requires AllDigits(a) && AllDigits(b)
    ensures AllDigits(a + b) && DecimalValue(a) <= DecimalValue(a + b)
    decreases |b|
  {
    assert AllDigits(a + b) by {
      assert forall i :: 0 <= i < |a + b| ==> (a + b)[i] == if i < |a| then a[i] else b[i - |a|];
    }
    if b != [] {
      var c := b[..|b| - 1];
      DecimalValuePrefix(a, c);
      assert (a + b)[..|a + b| - 1] == a + c;
    } else {
      assert a + b == a;
    }
  }

  /** Thousands separators, currency signs and spaces do not change the
      price: inserting any non-digit anywhere leaves the result unchanged. */
  lemma ParsePriceIgnoresSeparators(a: string, c: char, b: string)
    requires !IsDigit(c)
    ensures ParsePrice(a + [c] + b) == ParsePrice(a + b)
  {
    DigitsOfConcat(a + [c], b);
    DigitsOfConcat(a, [c]);
    DigitsOfConcat(a, b);
    assert [c][1..] == [];
    assert DigitsOf([c]) == [];
    assert DigitsOf(a + [c]) == DigitsOf(a);
  }

  /** A price printed as its decimal digits, with any non-digit text before
      and after, reads back as that price. */
  lemma ParsePriceRoundTrip(n: nat, pre: string, post: string)
    requires DigitsOf(pre) == [] && DigitsOf(post) == []
    ensures ParsePrice(pre + NatToDecimal(n) + post) == n
  {
    DigitsFramed(pre, NatToDecimal(n), post);
  }

  lemma DigitsFramed(pre: string, s: string, post: string)
    requires DigitsOf(pre) == [] && DigitsOf(post) == [] && AllDigits(s)
    ensures DigitsOf(pre + s + post) == s
  {
    DigitsOfConcat(pre + s, post);
    DigitsOfConcat(pre, s);
    DigitsOfDigits(s);
  }

  /** The 5.0 reader: `if (!priceStr) return 0;` then keep digits and commas,
      delete the first comma only, and `parseInt` the leading digits. */
  function ParsePrice50(text: string): (n: nat)
    ensures n <= ParsePrice(text)
  {
    LeadWithinDigits(text);
    if text == [] then 0
    else
      var kept := KeepDigitsAndCommas(text);
      var t := DropFirst(kept, ',');
      var lead := LeadingDigits(t);
      if lead == [] then 0 else DecimalValue(lead)
  }

  /** `s.replace(/[^\d,]/g, '')`. */
  function KeepDigitsAndCommas(s: string): (r: string)
    ensures forall i :: 0 <= i < |r| ==> IsDigit(r[i]) || r[i] == ','
  {
    if s == [] then []
    else (if IsDigit(s[0]) || s[0] == ',' then [s[0]] else []) + KeepDigitsAndCommas(s[1..])
  }

  /** `s.replace(c, '')` with a one-character string pattern: the first
      occurrence only. */
  function DropFirst(s: string, c: char): (r: string)
    ensures |r| == |s| || |r| == |s| - 1
  {
    if s == [] then [] else if s[0] == c then s[1..] else [s[0]] + DropFirst(s[1..], c)
  }

  /** The digits the 5.0 reader reads come first among all the digits of the
      text, so they are worth no more than all of them. */
  lemma LeadWithinDigits(text: string)
    ensures var lead := LeadingDigits(DropFirst(KeepDigitsAndCommas(text), ','));
      lead != [] ==> DigitsOf(text) != [] && DecimalValue(lead) <= DecimalValue(DigitsOf(text))
  {
    var kept := KeepDigitsAndCommas(text);
    var t := DropFirst(kept, ',');
    var lead := LeadingDigits(t);
    if lead != [] {
      DigitsOfKept(text);
      DigitsOfDropFirst(kept);
      var rest := t[|lead|..];
      assert t == lead + rest;
      DigitsOfConcat(lead, rest);
      DigitsOfDigits(lead);
      DecimalValuePrefix(lead, DigitsOf(rest));
    }
  }

  lemma {:induction false} DigitsOfKept(s: string)
    ensures DigitsOf(KeepDigitsAndCommas(s)) == DigitsOf(s)
    decreases |s|
  {
    if s != [] {
      var h: string := if IsDigit(s[0]) || s[0] == ',' then [s[0]] else [];
      DigitsOfConcat(h, KeepDigitsAndCommas(s[1..]));
      DigitsOfKept(s[1..]);
      assert DigitsOf(h) == if IsDigit(s[0]) then [s[0]] else [] by {
        if h != [] { assert h[1..] == []; }
      }
    }
  }

  lemma {:induction false} DigitsOfDropFirst(s: string)
    ensures DigitsOf(DropFirst(s, ',')) == DigitsOf(s)
    decreases |s|
  {
    if s != [] && s[0] != ',' {
      DigitsOfConcat([s[0]], DropFirst(s[1..], ','));
      DigitsOfDropFirst(s[1..]);
      assert [s[0]][1..] == [];
    }
  }

  /** The longest prefix of ASCII digits: what `parseInt` reads. */
  function LeadingDigits(s: string): (r: string)
    ensures AllDigits(r) && |r| <= |s| && s[..|r|] == r
    ensures |r| < |s| ==> !IsDigit(s[|r|])
  {
    if s == [] || !IsDigit(s[0]) then [] else [s[0]] + LeadingDigits(s[1..])
  }

  lemma {:induction false} KeepDigitsAndCommasConcat(a: string, b: string)
    ensures KeepDigitsAndCommas(a + b) == KeepDigitsAndCommas(a) + KeepDigitsAndCommas(b)
    decreases |a|
  {
    if a != [] {
      assert (a + b)[0] == a[0];
      assert (a + b)[1..] == a[1..] + b;
      KeepDigitsAndCommasConcat(a[1..], b);
    } else {
      assert a + b == b;
    }
  }

  lemma {:induction false} KeepDigitsAndCommasKeeps(s: string)
    requires AllDigits(s)
    ensures KeepDigitsAndCommas(s) == s
    decreases |s|
  {
    if s != [] { KeepDigitsAndCommasKeeps(s[1..]); }
  }

  lemma {:induction false} DropFirstAfter(a: string, rest: string)
    requires AllDigits(a)
    ensures DropFirst(a + [','] + rest, ',') == a + rest
    decreases |a|
  {
    if a != [] {
      assert (a + [','] + rest)[0] == a[0];
      assert (a + [','] + rest)[1..] == a[1..] + [','] + rest;
      DropFirstAfter(a[1..], rest);
      assert [a[0]] + (a[1..] + rest) == a + rest;
    } else {
      assert a + [','] + rest == [','] + rest;
    }
  }

  /** The 5.0 reader stops at the second comma: a price written with two
      comma separators (digit groups `a`, `b`, `c`, then text with neither
      digits nor commas) reads as the digits of `a` and `b` only, where the
      digits-only reader of the later drafts reads all three groups. */
  lemma ParsePrice50StopsAtSecondComma(a: string, b: string, c: string, post: string)
    requires AllDigits(a) && AllDigits(b) && AllDigits(c) && a + b != []
    requires KeepDigitsAndCommas(post) == []
    ensures ParsePrice50(a + ("," + (b + ("," + (c + post))))) == DecimalValue(a + b)
    ensures ParsePrice(a + ("," + (b + ("," + (c + post))))) == DecimalValue(a + b + c)
  {
    var s := a + ("," + (b + ("," + (c + post))));
    KeptTwoCommas(a, b, c, post);
    LeadAfterFirstComma(a, b, c);
    DigitsTwoCommas(a, b, c, post);
    ReadsAs(s, a + ("," + (b + ("," + c))), a + b, a + b + c);
  }

  /** Both readers, given what each one keeps of `s`. */
  lemma ReadsAs(s: string, kept: string, lead: string, digits: string)
    requires s != [] && lead != [] && digits != []
    requires KeepDigitsAndCommas(s) == kept && LeadingDigits(DropFirst(kept, ',')) == lead
    requires DigitsOf(s) == digits
    ensures ParsePrice50(s) == DecimalValue(lead)
    ensures ParsePrice(s) == DecimalValue(digits)
  {
  }

  lemma LeadAfterFirstComma(a: string, b: string, c: string)
    requires AllDigits(a) && AllDigits(b) && AllDigits(c)
    ensures LeadingDigits(DropFirst(a + ("," + (b + ("," + c))), ',')) == a + b
  {
    var x := b + ("," + c);
    DropFirstAfter(a, x);
    assert a + [','] + x == a + ("," + x);
    assert a + x == (a + b) + ("," + c);
    LeadingDigitsOfDigits(a + b, "," + c);
  }

  lemma KeptTwoCommas(a: string, b: string, c: string, post: string)
    requires AllDigits(a) && AllDigits(b) && AllDigits(c)
    requires KeepDigitsAndCommas(post) == []
    ensures KeepDigitsAndCommas(a + ("," + (b + ("," + (c + post))))) == a + ("," + (b + ("," + c)))
  {
    KeepDigits(c, post);
    KeepComma(c + post);
    KeepDigits(b, "," + (c + post));
    KeepComma(b + ("," + (c + post)));
    KeepDigits(a, "," + (b + ("," + (c + post))));
  }

  lemma DigitsTwoCommas(a: string, b: string, c: string, post: string)
    requires AllDigits(a) && AllDigits(b) && AllDigits(c)
    requires KeepDigitsAndCommas(post) == []
    ensures DigitsOf(a + ("," + (b + ("," + (c + post))))) == a + b + c
  {
    NoKeptNoDigits(post);
    DigitsAhead(c, post);
    DigitsComma(c + post);
    DigitsAhead(b, "," + (c + post));
    DigitsComma(b + ("," + (c + post)));
    DigitsAhead(a, "," + (b + ("," + (c + post))));
    assert a + (b + c) == a + b + c;
  }

  lemma KeepDigits(a: string, b: string)
    requires AllDigits(a)
    ensures KeepDigitsAndCommas(a + b) == a + KeepDigitsAndCommas(b)
  {
    KeepDigitsAndCommasKeeps(a);
    KeepDigitsAndCommasConcat(a, b);
  }

  lemma KeepComma(b: string)
    ensures KeepDigitsAndCommas("," + b) == "," + KeepDigitsAndCommas(b)
  {
    KeepDigitsAndCommasConcat(",", b);
    assert KeepDigitsAndCommas(",") == ",";
  }

  lemma DigitsAhead(a: string, b: string)
    requires AllDigits(a)
    ensures DigitsOf(a + b) == a + DigitsOf(b)
  {
    DigitsOfDigits(a);
    DigitsOfConcat(a, b);
  }

  lemma DigitsComma(b: string)
    ensures DigitsOf("," + b) == DigitsOf(b)
  {
    DigitsOfConcat(",", b);
    assert DigitsOf(",") == [];
  }

  lemma {:induction false} NoKeptNoDigits(s: string)
    requires KeepDigitsAndCommas(s) == []
    ensures DigitsOf(s) == []
    decreases |s|
  {
    if s != [] {
      var h := s[0];
      assert KeepDigitsAndCommas(s) == (if IsDigit(h) || h == ',' then [h] else []) + KeepDigitsAndCommas(s[1..]);
      NoKeptNoDigits(s[1..]);
    }
  }

  /** The price text "1,200,000 €" reads as 1200 in 5.0 and as 1200000 in
      the later drafts. */
  lemma ParsePrice50Example()
    ensures ParsePrice50("1,200,000 €") == 1200
    ensures ParsePrice("1,200,000 €") == 1200000
  {
    PriceTextParts();
    ParsePrice50StopsAtSecondComma("1", "200", "000", " €");
    DecimalValueExamples();
  }

  lemma PriceTextParts()
    ensures "1,200,000 €" == "1" + ("," + ("200" + ("," + ("000" + " €"))))
    ensures KeepDigitsAndCommas(" €") == []
    ensures "1" + "200" == "1200" && "1" + "200" + "000" == "1200000"
  {
    PriceTextSplit();
    CurrencyKeepsNothing();
  }

  lemma PriceTextSplit()
    ensures "1,200,000 €" == "1" + ("," + ("200" + ("," + ("000" + " €"))))
  {
    var t := "000" + " €";
    assert t == "000 €";
    var u := "," + t;
    assert u == ",000 €";
    var v := "200" + u;
    assert v == "200,000 €";
    assert "," + v == ",200,000 €";
  }

  lemma CurrencyKeepsNothing()
    ensures KeepDigitsAndCommas(" €") == []
  {
    assert " €"[1..] == "€";
    assert "€"[1..] == [];
  }

  lemma DecimalValueExamples()
    ensures DecimalValue("1200") == 1200 && DecimalValue("1200000") == 1200000
  {
    assert DecimalValue("1") == 1 by { assert "1"[..0] == ""; }
    assert DecimalValue("12") == 12 by { assert "12"[..1] == "1"; }
    assert DecimalValue("120") == 120 by { assert "120"[..2] == "12"; }
    assert DecimalValue("1200") == 1200 by { assert "1200"[..3] == "120"; }
    assert DecimalValue("12000") == 12000 by { assert "12000"[..4] == "1200"; }
    assert DecimalValue("120000") == 120000 by { assert "120000"[..5] == "12000"; }
    assert DecimalValue("1200000") == 1200000 by { assert "1200000"[..6] == "120000"; }
  }

  /** JavaScript's `\s`. */
  predicate IsSpace(c: char) {
    c == ' ' || c == '\t' || c == '\n' || c == '\r' || c == '\U{000B}' || c == '\U{000C}'
    || c == '\U{00A0}' || c == '\U{1680}' || ('\U{2000}' <= c <= '\U{200A}')
    || c == '\U{2028}' || c == '\U{2029}' || c == '\U{202F}' || c == '\U{205F}'
    || c == '\U{3000}' || c == '\U{FEFF}'
  }

  function SkipSpaces(s: string): (r: string)
    ensures |r| <= |s| && r == s[|s| - |r|..]
    ensures r == [] || !IsSpace(r[0])
  {
    if s != [] && IsSpace(s[0]) then SkipSpaces(s[1..]) else s
  }

  /** The digit run at the head of `s` when it is followed by `\s*m²`. */
  function AreaAtHead(s: string): Option<string>
  {
    var d := LeadingDigits(s);
    if d != [] && StartsWith(SkipSpaces(s[|d|..]), "m²") then Some(d) else None
  }

  lemma ContainsInTail(s: string, k: nat, p: string)
    ensures k <= |s| && Contains(s[k..], p) ==> Contains(s, p)
  {
    if k <= |s| && Contains(s[k..], p) {
      assert s == s[..k] + s[k..];
      ContainsSuffix(s[..k], s[k..], p);
    }
  }

  lemma AreaAtHeadUnit(s: string)
    ensures AreaAtHead(s).Some? ==> Contains(s, "m²")
  {
    var d := LeadingDigits(s);
    if AreaAtHead(s).Some? {
      var r := SkipSpaces(s[|d|..]);
      assert s[|s| - |r|..][..2] == s[|s| - |r|..|s| - |r| + 2];
      ContainsAt(s, "m²", |s| - |r|);
    }
  }

  /** The capture of `/(\d+)\s*m²/` in `text`: the first maximal digit run
      followed by optional white space and `m²`. A match can only start at the
      head of a digit run, and a run that fails fails from every position
      inside it, so the scan moves run by run. */
  function AreaDigits(s: string): (r: Option<string>)
    ensures r.Some? ==> r.value != [] && AllDigits(r.value)
    ensures r.Some? ==> Contains(s, "m²")
    decreases |s|
  {
    AreaAtHeadUnit(s);
    ContainsInTail(s, |LeadingDigits(s)|, "m²");
    ContainsInTail(s, 1, "m²");
    if s == [] then None
    else if !IsDigit(s[0]) then AreaDigits(s[1..])
    else
      var here := AreaAtHead(s);
      if here.Some? then here else AreaDigits(s[|LeadingDigits(s)|..])
  }

  /** idealista.js and 8.1: `parseInt(match[1]) || 0`. */
  function ParseArea(text: string): (n: nat)
    ensures n > 0 ==> Contains(text, "m²")
  {
    var d := AreaDigits(text);
    if d.Some? then DecimalValue(d.value) else 0
  }

  /** 8.0 and 7.7: `match[1] || 0`, the digit string itself; it is only ever
      used as a sort key, where JavaScript reads it as a number. */
  function ParseAreaText(text: string): (r: string)
  {
    var d := AreaDigits(text);
    if d.Some? then d.value else "0"
  }

  /** Both readers put the same number on every text. */
  lemma ParseAreaDraftsAgree(text: string)
    ensures AllDigits(ParseAreaText(text)) && DecimalValue(ParseAreaText(text)) == ParseArea(text)
  {
    if AreaDigits(text).None? {
      assert DecimalValue("0") == DecimalValue("") * 10 + 0;
    }
  }

  lemma {:induction false} LeadingDigitsOfDigits(d: string, rest: string)
    requires AllDigits(d)
    requires rest == [] || !IsDigit(rest[0])
    ensures LeadingDigits(d + rest) == d
    decreases |d|
  {
    if d != [] {
      assert (d + rest)[0] == d[0];
      assert (d + rest)[1..] == d[1..] + rest;
      LeadingDigitsOfDigits(d[1..], rest);
    } else {
      assert d + rest == rest;
    }
  }

  lemma {:induction false} NoDigitsNoArea(s: string)
    requires DigitsOf(s) == []
    ensures AreaDigits(s) == None
    decreases |s|
  {
    if s != [] {
      var h := s[0];
      assert DigitsOf(s) == (if IsDigit(h) then [h] else []) + DigitsOf(s[1..]);
      assert DigitsOf(s) == DigitsOf(s[1..]);
      NoDigitsNoArea(s[1..]);
    }
  }

  /** The unit after one space. */
  lemma UnitAfterSpace(post: string)
    ensures " m²" + post != [] && !IsDigit((" m²" + post)[0])
    ensures StartsWith(SkipSpaces(" m²" + post), "m²")
  {
    var tail := " m²" + post;
    var unit := "m²" + post;
    assert tail[0] == ' ' && tail[1..] == unit;
    assert unit[0] == 'm' && unit[..2] == "m²";
    assert SkipSpaces(unit) == unit;
  }

  lemma AreaAtHeadGeneral(d: string, tail: string)
    requires d != [] && AllDigits(d)
    requires tail != [] && !IsDigit(tail[0])
    requires StartsWith(SkipSpaces(tail), "m²")
    ensures AreaAtHead(d + tail) == Some(d)
  {
    LeadingDigitsOfDigits(d, tail);
    assert (d + tail)[|d|..] == tail;
  }

  /** A card text "<n> m²", after any digit-free text and before anything,
      reads back as `n`. */
  lemma ParseAreaRoundTrip(n: nat, pre: string, post: string)
    requires DigitsOf(pre) == []
    ensures ParseArea(pre + NatToDecimal(n) + " m²" + post) == n
  {
    var d := NatToDecimal(n);
    var tail := " m²" + post;
    UnitAfterSpace(post);
    AreaAtHeadGeneral(d, tail);
    AreaOfDigitsFirst(d + tail, d);
    AreaAfterDigitFree(pre, d + tail);
    Regroup(pre, d, " m²", post);
  }

  lemma AreaOfDigitsFirst(s: string, d: string)
    requires d != [] && AreaAtHead(s) == Some(d)
    ensures AreaDigits(s) == Some(d)
  {
    assert LeadingDigits(s) == d;
    assert s[0] == d[0];
  }

  lemma Regroup(a: string, b: string, c: string, e: string)
    ensures a + b + c + e == a + (b + (c + e))
  {
  }

  lemma {:induction false} AreaAfterDigitFree(pre: string, s: string)
    requires DigitsOf(pre) == []
    ensures AreaDigits(pre + s) == AreaDigits(s)
    decreases |pre|
  {
    if pre != [] {
      var h := pre[0];
      assert DigitsOf(pre) == (if IsDigit(h) then [h] else []) + DigitsOf(pre[1..]);
      assert DigitsOf(pre) == DigitsOf(pre[1..]);
      assert (pre + s)[0] == pre[0];
      assert (pre + s)[1..] == pre[1..] + s;
      AreaAfterDigitFree(pre[1..], s);
    } else {
      assert pre + s == s;
    }
  }
}
