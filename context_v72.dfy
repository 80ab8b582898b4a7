/** The search context of draft 7.2: the lower-cased path without its empty
    segments, an area search read off the first segment by substring tests,
    a `/geo/` form, and a key with no sort order that drops the location for
    area searches. */
module ContextV72 {
  import opened Text
  import opened Records
  import opened Url
  import ContextSplit
  import ContextV85

  /** `.filter(Boolean)` on the segments. */
  function NonEmpty(parts: seq<string>): (r: seq<string>)
    ensures forall k :: 0 <= k < |r| ==> r[k] != ""
    ensures forall k :: 0 <= k < |r| ==> r[k] in parts
    ensures (forall k :: 0 <= k < |parts| ==> parts[k] != "") ==> r == parts
  {
    if parts == [] then []
    else
      var rest := NonEmpty(parts[1..]);
      assert forall k :: 0 <= k < |rest| ==> rest[k] in parts by {
        forall k | 0 <= k < |rest| ensures rest[k] in parts {
          var j :| 0 <= j < |parts[1..]| && parts[1..][j] == rest[k];
          assert parts[j + 1] == rest[k];
        }
      }
      if parts[0] == "" then rest
      else
        assert parts == [parts[0]] + parts[1..];
        [parts[0]] + rest
  }

  function PathParts(path: string): seq<string> {
    NonEmpty(Split(Lower(path), '/'))
  }

  /** `getPageContext`. For an area search the first segment must exist:
      reading it from an empty path throws, which is `None`. */
  function GetPageContext(path: string, q: Query): (r: Option<Context>)
    ensures r.None? <==> Has(q, "shape") && PathParts(path) == []
    ensures r.Some? ==> (r.value.isAreaSearch <==> Has(q, "shape"))
    ensures r.Some? && r.value.isAreaSearch ==>
      r.value.transactionType in {"rent", "sale"} && r.value.location == "" && r.value.subLocation == ""
    ensures r.Some? && r.value.isAreaSearch ==>
      (r.value.transactionType == "rent" <==> Contains(PathParts(path)[0], "arrendar"))
    ensures r.Some? ==> r.value.transactionType in {"rent", "sale", ""} && r.value.propertyType != ""
    ensures r.Some? ==> r.value.restri == "" && r.value.ordem == ""
    ensures r.Some? && r.value.isAreaSearch ==>
      var first := PathParts(path)[0];
      r.value.propertyType ==
        if Contains(first, "casas") then "houses" else if Contains(first, "apartamentos") then "apartments" else "other"
    ensures !Has(q, "shape") && |PathParts(path)| >= 2 && '-' in PathParts(path)[0] ==>
      var parts := PathParts(path);
      var tt := Split(parts[0], '-');
      r == Some(Context(false, ContextSplit.TransactionType(tt[0]), ContextSplit.PropertyType(ContextSplit.Piece(tt, 1)),
                        parts[1], ContextSplit.Piece(parts, 2), "", ""))
    ensures (!Has(q, "shape") && !(|PathParts(path)| >= 2 && '-' in PathParts(path)[0]) &&
             |PathParts(path)| >= 3 && PathParts(path)[0] == "geo") ==>
      var parts := PathParts(path);
      var tt := Split(parts[1], '-');
      r == Some(Context(false, ContextSplit.TransactionType(tt[0]), ContextSplit.PropertyType(ContextSplit.Piece(tt, 1)),
                        parts[2], "", "", ""))
    ensures (!Has(q, "shape") && !(|PathParts(path)| >= 2 && '-' in PathParts(path)[0]) &&
             !(|PathParts(path)| >= 3 && PathParts(path)[0] == "geo")) ==>
      r == Some(Context(false, "", "other", "", "", "", ""))
  {
    var parts := PathParts(path);
    if Has(q, "shape") then
      if parts == [] then None
      else
        var first := parts[0];
        Some(Context(true,
                     if Contains(first, "arrendar") then "rent" else "sale",
                     if Contains(first, "casas") then "houses"
                     else if Contains(first, "apartamentos") then "apartments" else "other",
                     "", "", "", ""))
    else if |parts| >= 2 && '-' in parts[0] then
      var tt := Split(parts[0], '-');
      Some(Context(false, ContextSplit.TransactionType(tt[0]), ContextSplit.PropertyType(ContextSplit.Piece(tt, 1)),
                   parts[1], ContextSplit.Piece(parts, 2), "", ""))
    else if |parts| >= 3 && parts[0] == "geo" then
      var tt := Split(parts[1], '-');
      Some(Context(false, ContextSplit.TransactionType(tt[0]), ContextSplit.PropertyType(ContextSplit.Piece(tt, 1)),
                   parts[2], "", "", ""))
    else
      Some(Context(false, "", "other", "", "", "", ""))
  }

  const Prefix := ContextV85.Prefix

  /** `getStorageKey`: an area search has one partition per transaction and
      type; otherwise the whole key loses its trailing underscores. */
  function StorageKey(ctx: Context): (k: string)
    ensures ctx.isAreaSearch ==> StartsWith(k, Prefix + "area_") && EndsWith(k, "_" + ctx.propertyType)
    ensures !ctx.isAreaSearch ==>
      var raw := Prefix + ctx.transactionType + "_" + ctx.propertyType + "_" + ctx.location + "_" + ctx.subLocation;
      (k == [] || k[|k| - 1] != '_') && StartsWith(raw, k) && forall i :: |k| <= i < |raw| ==> raw[i] == '_'
  {
    if ctx.isAreaSearch then Prefix + "area_" + ctx.transactionType + "_" + ctx.propertyType
    else TrimTrailing(Prefix + ctx.transactionType + "_" + ctx.propertyType + "_" + ctx.location + "_" + ctx.subLocation, '_')
  }

  /** `\/comprar-.+\/` or `\/arrendar-.+\/` matches at `i`: the word, one
      character at least and then a later slash. */
  predicate SlashAfter(p: string, i: nat, n: nat) {
    exists j: nat :: i + n < j < |p| && p[j] == '/'
  }

  predicate TransactionAt(p: string, i: nat) {
    (i + 9 <= |p| && p[i..i + 9] == "/comprar-" && SlashAfter(p, i, 9)) ||
    (i + 10 <= |p| && p[i..i + 10] == "/arrendar-" && SlashAfter(p, i, 10))
  }

  predicate HasTransaction(p: string) {
    exists i: nat :: i < |p| && TransactionAt(p, i)
  }

  /** `isIdealistaListingPage`. */
  predicate IsListingPage(path: string)
    ensures IsListingPage(path) ==> Contains(Lower(path), "/comprar-") || Contains(Lower(path), "/arrendar-")
    ensures IsListingPage(path) ==> |Lower(path)| > 1 && '/' in Lower(path)[1..]
  {
    var p := Lower(path);
    TransactionContains(p);
    HasTransaction(p) &&
    !(Contains(p, "/imovel/") || Contains(p, "/blog/") || Contains(p, "/ajuda/") || Contains(p, "/contato/") ||
      EndsWith(p, "/mapa"))
  }

  /** The pattern names the transaction and needs a slash after it: a
      bare search such as `/comprar-casas`, which the later drafts track, is
      not a listing page. */
  lemma TransactionContains(p: string)
    ensures HasTransaction(p) ==> Contains(p, "/comprar-") || Contains(p, "/arrendar-")
    ensures HasTransaction(p) ==> |p| > 1 && '/' in p[1..]
  {
    if HasTransaction(p) {
      var i: nat :| i < |p| && TransactionAt(p, i);
      var n := if i + 9 <= |p| && p[i..i + 9] == "/comprar-" && SlashAfter(p, i, 9) then 9 else 10;
      if n == 9 {
        ContainsAt(p, "/comprar-", i);
      } else {
        ContainsAt(p, "/arrendar-", i);
      }
      var j: nat :| i + n < j < |p| && p[j] == '/';
      assert p[1..][j - 1] == '/';
    }
  }

  /** Segments `/a/b/c/` without empty pieces come back as `[a, b, c]`. */
  lemma {:induction false} PartsOfPath(segs: seq<string>)
    requires |segs| >= 1
    requires forall k :: 0 <= k < |segs| ==> segs[k] != "" && '/' !in segs[k] && Lower(segs[k]) == segs[k]
    ensures PathParts("/" + Join(segs, "/") + "/") == segs
  {
    var all := [""] + segs + [""];
    assert all == [""] + (segs + [""]);
    JoinCons("", segs + [""], "/");
    JoinSnoc(segs, "/");
    var path := "/" + Join(segs, "/") + "/";
    assert Join(all, "/") == path;
    SplitJoin(all, '/');
    LowerJoin(all);
    assert all[1..][..|segs|] == segs;
    NonEmptyFrame(segs);
  }

  lemma {:induction false} JoinSnoc(parts: seq<string>, sep: string)
    requires parts != []
    ensures Join(parts + [""], sep) == Join(parts, sep) + sep
    decreases |parts|
  {
    if |parts| == 1 {
      JoinCons(parts[0], [""], sep);
    } else {
      assert (parts + [""])[1..] == parts[1..] + [""];
      JoinSnoc(parts[1..], sep);
    }
  }

  /** Joining already lower-case pieces with `/` gives a lower-case path. */
  lemma {:induction false} LowerJoin(parts: seq<string>)
    requires forall k :: 0 <= k < |parts| ==> Lower(parts[k]) == parts[k]
    ensures Lower(Join(parts, "/")) == Join(parts, "/")
    decreases |parts|
  {
    if |parts| > 1 {
      LowerJoin(parts[1..]);
      ContextV85.LowerConcat(parts[0] + "/", Join(parts[1..], "/"));
      ContextV85.LowerConcat(parts[0], "/");
      ContextV85.LowerIs("/", "/");
    }
  }

  lemma NonEmptyFrame(segs: seq<string>)
    requires forall k :: 0 <= k < |segs| ==> segs[k] != ""
    ensures NonEmpty([""] + segs + [""]) == segs
  {
    var all := [""] + segs + [""];
    assert all[0] == "" && all[1..] == segs + [""];
    NonEmptyLast(segs);
  }

  lemma {:induction false} NonEmptyLast(segs: seq<string>)
    requires forall k :: 0 <= k < |segs| ==> segs[k] != ""
    ensures NonEmpty(segs + [""]) == segs
    decreases |segs|
  {
    if segs == [] {
      assert ([] + [""])[1..] == [];
    } else {
      assert (segs + [""])[1..] == segs[1..] + [""];
      NonEmptyLast(segs[1..]);
      assert segs == [segs[0]] + segs[1..];
    }
  }

  /** `trans-typ` is lower case when both halves are, and splits back into
      them at the dash. */
  lemma TransSegment(trans: string, typ: string)
    requires '/' !in trans && '-' !in trans && Lower(trans) == trans
    requires '/' !in typ && '-' !in typ && Lower(typ) == typ
    ensures var seg := trans + "-" + typ;
      seg != "" && '/' !in seg && '-' in seg && Lower(seg) == seg && Split(seg, '-') == [trans, typ]
  {
    var seg := trans + "-" + typ;
    ContextV85.LowerConcat(trans + "-", typ);
    ContextV85.LowerConcat(trans, "-");
    ContextV85.LowerIs("-", "-");
    assert seg[|trans|] == '-';
    assert Join([trans, typ], "-") == seg by { JoinCons(trans, [typ], "-"); }
    SplitJoin([trans, typ], '-');
  }

  lemma ThreeSegments(a: string, b: string, c: string)
    requires a != "" && '/' !in a && Lower(a) == a
    requires b != "" && '/' !in b && Lower(b) == b
    requires c != "" && '/' !in c && Lower(c) == c
    ensures var segs := [a, b, c];
      forall k :: 0 <= k < |segs| ==> segs[k] != "" && '/' !in segs[k] && Lower(segs[k]) == segs[k]
  {
  }

  lemma GeoIsLower()
    ensures "geo" != "" && '/' !in "geo" && Lower("geo") == "geo"
  {
    ContextV85.LowerIs("geo", "geo");
  }

  /** A path whose pieces start with a transaction segment. */
  lemma ContextOfParts(path: string, q: Query, trans: string, typ: string, loc: string, sub: string)
    requires !Has(q, "shape")
    requires '-' in trans + "-" + typ && Split(trans + "-" + typ, '-') == [trans, typ]
    requires PathParts(path) == [trans + "-" + typ, loc, sub]
    ensures GetPageContext(path, q) ==
      Some(Context(false, ContextSplit.TransactionType(trans), ContextSplit.PropertyType(typ), loc, sub, "", ""))
  {
    var parts := PathParts(path);
    assert ContextSplit.Piece([trans, typ], 1) == typ;
    assert ContextSplit.Piece(parts, 2) == sub;
  }

  /** A path `/geo/…`. */
  lemma ContextOfGeoParts(path: string, q: Query, trans: string, typ: string, loc: string)
    requires !Has(q, "shape")
    requires Split(trans + "-" + typ, '-') == [trans, typ]
    requires PathParts(path) == ["geo", trans + "-" + typ, loc]
    ensures GetPageContext(path, q) ==
      Some(Context(false, ContextSplit.TransactionType(trans), ContextSplit.PropertyType(typ), loc, "", "", ""))
  {
    var parts := PathParts(path);
    NoDashInGeo();
    assert '-' !in parts[0];
    var tt := Split(parts[1], '-');
    assert tt == [trans, typ];
    assert ContextSplit.Piece(tt, 1) == typ;
  }

  lemma NoDashInGeo()
    ensures '-' !in "geo"
  {
    var g := "geo";
    assert g == ['g', 'e', 'o'];
  }

  /** A search page `/trans-type/loc/sub/` yields its four fields. */
  lemma ContextOfPath(trans: string, typ: string, loc: string, sub: string, q: Query)
    requires !Has(q, "shape")
    requires trans != "" && '/' !in trans && '-' !in trans && Lower(trans) == trans
    requires '/' !in typ && '-' !in typ && Lower(typ) == typ
    requires loc != "" && '/' !in loc && Lower(loc) == loc
    requires sub != "" && '/' !in sub && Lower(sub) == sub
    ensures GetPageContext("/" + Join([trans + "-" + typ, loc, sub], "/") + "/", q) ==
      Some(Context(false, ContextSplit.TransactionType(trans), ContextSplit.PropertyType(typ), loc, sub, "", ""))
  {
    TransSegment(trans, typ);
    var segs := [trans + "-" + typ, loc, sub];
    ThreeSegments(trans + "-" + typ, loc, sub);
    PartsOfPath(segs);
    ContextOfParts("/" + Join(segs, "/") + "/", q, trans, typ, loc, sub);
  }

  /** A search by district only, `/trans-type/loc/`, has an empty
      sub-location. */
  lemma ContextOfDistrictPath(trans: string, typ: string, loc: string, q: Query)
    requires !Has(q, "shape")
    requires trans != "" && '/' !in trans && '-' !in trans && Lower(trans) == trans
    requires '/' !in typ && '-' !in typ && Lower(typ) == typ
    requires loc != "" && '/' !in loc && Lower(loc) == loc
    ensures GetPageContext("/" + Join([trans + "-" + typ, loc], "/") + "/", q) ==
      Some(Context(false, ContextSplit.TransactionType(trans), ContextSplit.PropertyType(typ), loc, "", "", ""))
  {
    TransSegment(trans, typ);
    var segs := [trans + "-" + typ, loc];
    PartsOfPath(segs);
    var path := "/" + Join(segs, "/") + "/";
    assert ContextSplit.Piece([trans, typ], 1) == typ;
    assert ContextSplit.Piece(PathParts(path), 2) == "";
  }

  /** The `/geo/trans-type/loc/` form yields a location and no
      sub-location. */
  lemma ContextOfGeoPath(trans: string, typ: string, loc: string, q: Query)
    requires !Has(q, "shape")
    requires '/' !in trans && '-' !in trans && Lower(trans) == trans
    requires '/' !in typ && '-' !in typ && Lower(typ) == typ
    requires loc != "" && '/' !in loc && Lower(loc) == loc
    ensures GetPageContext("/" + Join(["geo", trans + "-" + typ, loc], "/") + "/", q) ==
      Some(Context(false, ContextSplit.TransactionType(trans), ContextSplit.PropertyType(typ), loc, "", "", ""))
  {
    TransSegment(trans, typ);
    GeoIsLower();
    var segs := ["geo", trans + "-" + typ, loc];
    ThreeSegments("geo", trans + "-" + typ, loc);
    PartsOfPath(segs);
    ContextOfGeoParts("/" + Join(segs, "/") + "/", q, trans, typ, loc);
  }

  /** All area searches for one transaction and type share a partition,
      whatever the drawn shape, and it is never a plain search's partition. */
  lemma AreaKeyIgnoresPlace(a: Context, b: Context)
    requires a.isAreaSearch && b.isAreaSearch
    requires a.transactionType == b.transactionType && a.propertyType == b.propertyType
    requires a.transactionType in {"rent", "sale"}
    ensures StorageKey(a) == StorageKey(b)
    ensures !StartsWith(StorageKey(a), Prefix + a.transactionType + "_")
  {
    var k := StorageKey(a);
    var n := |Prefix|;
    var x := Prefix + a.transactionType + "_";
    assert k[n] == 'a';
    assert x[n] == a.transactionType[0] != 'a';
  }

  /** Draft 7.7 appends the sort order to the key draft 7.2 gives the same
      search, so the two never share a partition. */
  lemma KeyBeforeOrder(ctx: Context)
    requires !ctx.isAreaSearch
    requires ctx.subLocation != "" && ctx.subLocation[|ctx.subLocation| - 1] != '_'
    requires ctx.ordem != "" && ctx.ordem[|ctx.ordem| - 1] != '_'
    ensures StorageKey(ctx) == Prefix + ctx.transactionType + "_" + ctx.propertyType + "_" + ctx.location + "_" + ctx.subLocation
    ensures ContextSplit.StorageKey(ctx) == StorageKey(ctx) + "_" + ctx.ordem
  {
    var tail := ctx.location + "_" + ctx.subLocation + "_" + ctx.ordem;
    assert TrimTrailing(tail, '_') == tail;
  }
}
