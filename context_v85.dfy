/** The search context of the current draft (version 8.5): the path regular
    expression of `getPageContext`, read at the level of path segments, the
    lookups that turn its groups into a context, the partition key and the
    listing-page test. */
module ContextV85 {
  import opened Text
  import opened Records
  import opened Url

  /** `[\w-]` without the `u` flag. */
  predicate IsTypeChar(c: char) {
    'a' <= c <= 'z' || 'A' <= c <= 'Z' || '0' <= c <= '9' || c == '_' || c == '-'
  }

  predicate AllTypeChars(s: string) { forall i :: 0 <= i < |s| ==> IsTypeChar(s[i]) }

  /** A segment the lookahead `(?!com-)` rejects (the flag `i` makes it
      case-insensitive). */
  predicate IsCom(s: string) { |s| >= 4 && Lower(s[..4]) == "com-" }

  /** A segment the `loc` and `subLoc` groups accept: `(?!com-)[^\/]+`. */
  predicate IsPlace(s: string) { s != "" && !IsCom(s) }

  /** The groups of a match; a group that did not take part is `""`. */
  datatype Groups = Groups(trans: string, typ: string, loc: string, subLoc: string, restri: string)

  const NoGroups := Groups("", "", "", "", "")

  /** `(?<trans>arrendar|comprar)-(?<type>…|[\w-]+)` followed by `/` or the
      end: the whole segment must be the transaction word, a dash and a
      non-empty run of word characters and dashes, so `type` is the rest of
      the segment whichever alternative matched. */
  function TransSplit(seg: string): (r: Option<(string, string)>)
    ensures r.Some? ==> seg == r.value.0 + "-" + r.value.1
    ensures r.Some? ==> Lower(r.value.0) == "arrendar" || Lower(r.value.0) == "comprar"
    ensures r.Some? ==> r.value.1 != "" && AllTypeChars(r.value.1)
  {
    if |seg| > 9 && Lower(seg[..9]) == "arrendar-" && AllTypeChars(seg[9..]) then
      assert Lower(seg[..8]) == Lower(seg[..9])[..8];
      assert seg == seg[..8] + "-" + seg[9..] by { assert seg[8] == Lower(seg[..9])[8]; }
      Some((seg[..8], seg[9..]))
    else if |seg| > 8 && Lower(seg[..8]) == "comprar-" && AllTypeChars(seg[8..]) then
      assert Lower(seg[..7]) == Lower(seg[..8])[..7];
      assert seg == seg[..7] + "-" + seg[8..] by { assert seg[7] == Lower(seg[..8])[7]; }
      Some((seg[..7], seg[8..]))
    else None
  }

  /** The end of the run of place segments that starts at `i`. */
  function PlaceRunEnd(r: seq<string>, i: nat): (e: nat)
    requires i <= |r|
    ensures i <= e <= |r|
    ensures forall k :: i <= k < e ==> IsPlace(r[k])
    ensures e < |r| ==> !IsPlace(r[e])
    decreases |r| - i
  {
    if i < |r| && IsPlace(r[i]) then PlaceRunEnd(r, i + 1) else i
  }

  /** What may follow the last place segment: `(?<restri>(?<=\/)com-[^\/]*)?\/?$`
      leaves nothing, an empty piece, or one `com-` segment, each with at
      most one trailing slash. */
  predicate ValidRest(u: seq<string>) {
    u == [] || ((|u| == 1 || (|u| == 2 && u[1] == "")) && (u[0] == "" || IsCom(u[0])))
  }

  function RestriOf(u: seq<string>): string {
    if u != [] && IsCom(u[0]) then u[0] else ""
  }

  /** The segments after the transaction segment: an optional location, the
      greedy run of sub-locations (the group keeps the last one) and an
      optional restriction. Backtracking to a shorter run never helps, since
      the segment it would give back is a place, which the rest rejects. */
  function Tail(r: seq<string>): Option<(string, string, string)> {
    if r != [] && IsPlace(r[0]) then
      var e := PlaceRunEnd(r, 1);
      if ValidRest(r[e..]) then Some((r[0], if e > 1 then r[e - 1] else "", RestriOf(r[e..]))) else None
    else if ValidRest(r) then Some(("", "", RestriOf(r)))
    else None
  }

  /** The regex matches with its transaction at segment `i`:
      `(?:\/[^\/]+)*` took the non-empty segments before it. */
  predicate MatchesAt(segs: seq<string>, i: nat) {
    i < |segs| && (forall k :: 0 <= k < i ==> segs[k] != "") &&
    TransSplit(segs[i]).Some? && Tail(segs[i + 1..]).Some?
  }

  function GroupsAt(segs: seq<string>, i: nat): Groups
    requires MatchesAt(segs, i)
  {
    var (trans, typ) := TransSplit(segs[i]).value;
    var (loc, sub, restri) := Tail(segs[i + 1..]).value;
    Groups(trans, typ, loc, sub, restri)
  }

  /** The greedy prefix group takes as many segments as it can, so the match
      uses the last transaction segment below `t` that lets the rest match. */
  /** Where the expression can match, segment by segment. */
  function Matching(segs: seq<string>): (b: seq<bool>)
    ensures |b| == |segs|
  {
    seq(|segs|, i requires 0 <= i < |segs| => MatchesAt(segs, i))
  }

  /** The last of the first `t` positions that hold, if any. */
  function LastTrue(b: seq<bool>, t: nat): (r: Option<nat>)
    requires t <= |b|
    ensures r.None? <==> forall i :: 0 <= i < t ==> !b[i]
    ensures r.Some? ==> r.value < t && b[r.value] && forall j :: r.value < j < t ==> !b[j]
  {
    if t == 0 then None
    else if b[t - 1] then Some(t - 1)
    else LastTrue(b, t - 1)
  }

  /** The groups of the expression: the greedy `.*` in front of the
      transaction segment makes it match at the last segment where it can. */
  function LastMatch(segs: seq<string>): Option<Groups> {
    var b := Matching(segs);
    match LastTrue(b, |b|)
    case None => None
    case Some(i) => assert b[i]; Some(GroupsAt(segs, i))
  }

  /** `path.match(pathRegex)?.groups`, or no groups. */
  function Match(path: string): Option<Groups> {
    if path == [] || path[0] != '/' then None
    else
      var segs := Split(path[1..], '/');
      LastMatch(segs)
  }

  /** `{ arrendar: 'rent', comprar: 'sale', venda: 'sale' }[trans?.toLowerCase()] || ''`. */
  function TransactionType(trans: string): string {
    var t := Lower(trans);
    if t == "arrendar" then "rent" else if t == "comprar" || t == "venda" then "sale" else ""
  }

  /** The object literal `getPageContext` looks the type token up in. */
  const TypeTable: map<string, string> := map[
    "casas" := "houses", "apartamentos" := "apartments", "quarto" := "rooms", "quartos" := "rooms",
    "escritorios" := "offices", "garagens" := "parking", "terrenos" := "lands"]

  /** The type table looked up on the lower-cased token; a token outside it
      is kept verbatim, in its original case. */
  function PropertyType(typ: string): (t: string)
    ensures Lower(typ) in TypeTable ==> t == TypeTable[Lower(typ)]
    ensures Lower(typ) !in TypeTable ==> t == typ
    ensures typ != "" ==> t != ""
  {
    var t := Lower(typ);
    if t == "casas" then "houses"
    else if t == "apartamentos" then "apartments"
    else if t == "quarto" || t == "quartos" then "rooms"
    else if t == "escritorios" then "offices"
    else if t == "garagens" then "parking"
    else if t == "terrenos" then "lands"
    else typ
  }

  function GetPageContext(path: string, q: Query): (ctx: Context)
    ensures ctx.isAreaSearch <==> Has(q, "shape")
    ensures ctx.ordem == Ordem(q)
    ensures Match(path).None? ==>
      ctx.transactionType == "" && ctx.propertyType == "" && ctx.location == "" &&
      ctx.subLocation == "" && ctx.restri == ""
    ensures Match(path).Some? ==>
      (ctx.transactionType == "rent" <==> Lower(Match(path).value.trans) == "arrendar") &&
      (ctx.transactionType == "sale" <==> Lower(Match(path).value.trans) == "comprar") &&
      ctx.propertyType == PropertyType(Match(path).value.typ) && ctx.propertyType != "" &&
      ctx.location == Match(path).value.loc && ctx.subLocation == Match(path).value.subLoc &&
      ctx.restri == Match(path).value.restri
  {
    var g := match Match(path) case Some(g) => g case None => NoGroups;
    Context(Has(q, "shape"), TransactionType(g.trans), PropertyType(g.typ), g.loc, g.subLoc, g.restri, Ordem(q))
  }

  const Prefix := "idealista_tracker_v7_"

  /** `getStorageKey`: the `.replace` binds to the second template literal
      only, so the collapse never reaches the `_` after the property type. */
  function StorageKey(ctx: Context): (k: string)
    ensures StartsWith(k, KeyHead(ctx))
    ensures var tail := k[|KeyHead(ctx)|..];
      !HasDouble(tail, '_') && (tail == [] || tail[|tail| - 1] != '_') &&
      RemoveChar(tail, '_') == RemoveChar(ctx.location + ctx.subLocation + ctx.ordem + ctx.restri, '_')
  {
    var raw := ctx.location + "_" + ctx.subLocation + "_" + ctx.ordem + "_" + ctx.restri;
    CollapseShape(raw, '_');
    CollapseKeepsOthers(raw, '_');
    DropSeparators(ctx.location, ctx.subLocation, ctx.ordem, ctx.restri);
    Prefix + (if ctx.isAreaSearch then "area_" else "") + ctx.transactionType + "_" + ctx.propertyType + "_" +
    Collapse(raw, '_')
  }

  /** The part of a key up to the `_` after the property type, which the
      collapse does not touch. */
  function KeyHead(ctx: Context): string {
    Prefix + (if ctx.isAreaSearch then "area_" else "") + ctx.transactionType + "_" + ctx.propertyType + "_"
  }

  lemma DropSeparators(l: string, s: string, o: string, r: string)
    ensures RemoveChar(l + "_" + s + "_" + o + "_" + r, '_') == RemoveChar(l + s + o + r, '_')
  {
    var x1 := l + "_" + s;
    var x2 := x1 + "_" + o;
    RemoveAround(l, s, '_');
    RemoveAround(x1, o, '_');
    RemoveAround(x2, r, '_');
    RemoveCharConcat(l, s, '_');
    RemoveCharConcat(l + s, o, '_');
    RemoveCharConcat(l + s + o, r, '_');
  }

  lemma RemoveAround(a: string, b: string, c: char)
    ensures RemoveChar(a + [c] + b, c) == RemoveChar(a, c) + RemoveChar(b, c)
  {
    assert RemoveChar([c], c) == [] by { assert [c][1..] == []; }
    RemoveCharConcat(a, [c], c);
    RemoveCharConcat(a + [c], b, c);
  }

  /** `\/(comprar|arrendar)-.+` matches at index `i`. */
  predicate TransSegmentAt(p: string, i: nat) {
    (i + 9 < |p| && p[i..i + 9] == "/comprar-") || (i + 10 < |p| && p[i..i + 10] == "/arrendar-")
  }

  predicate HasTransSegment(p: string) {
    exists i: nat :: i < |p| && TransSegmentAt(p, i)
  }

  /** `pagina-\d+$` matches at index `i`. */
  predicate PageNumberAt(p: string, i: nat) {
    i + 7 < |p| && p[i..i + 7] == "pagina-" && AllDigits(p[i + 7..])
  }

  predicate EndsWithPageNumber(p: string) {
    exists i: nat :: i < |p| && PageNumberAt(p, i)
  }

  predicate IsListingPage(path: string)
    ensures IsListingPage(path) ==> Contains(Lower(path), "/comprar-") || Contains(Lower(path), "/arrendar-")
  {
    var p := Lower(path);
    SegmentContains(p);
    HasTransSegment(p) &&
    !(Contains(p, "imovel") || Contains(p, "blog") || Contains(p, "ajuda") || Contains(p, "contato") ||
      EndsWith(p, "mapa") || EndsWithPageNumber(p))
  }

  lemma SegmentContains(p: string)
    ensures HasTransSegment(p) ==> Contains(p, "/comprar-") || Contains(p, "/arrendar-")
  {
    if HasTransSegment(p) {
      var i: nat :| i < |p| && TransSegmentAt(p, i);
      if i + 9 < |p| && p[i..i + 9] == "/comprar-" {
        ContainsAt(p, "/comprar-", i);
      } else {
        ContainsAt(p, "/arrendar-", i);
      }
    }
  }

  /** The run of place segments from `i` ends exactly at the first segment
      that is not a place. */
  lemma {:induction false} PlaceRunEndIs(r: seq<string>, i: nat, e: nat)
    requires i <= e <= |r|
    requires forall k :: i <= k < e ==> IsPlace(r[k])
    requires e == |r| || !IsPlace(r[e])
    ensures PlaceRunEnd(r, i) == e
    decreases e - i
  {
    if i < e { PlaceRunEndIs(r, i + 1, e); }
  }

  /** The tail groups: the first place is the location, the last of the
      following places is the sub-location, and a final `com-` segment is the
      restriction. */
  lemma TailOf(places: seq<string>, rest: seq<string>)
    requires forall k :: 0 <= k < |places| ==> IsPlace(places[k])
    requires ValidRest(rest)
    ensures Tail(places + rest) ==
      Some((if places == [] then "" else places[0],
            if |places| > 1 then places[|places| - 1] else "",
            RestriOf(rest)))
  {
    if places == [] {
      assert places + rest == rest;
      TailOfRest(rest);
    } else {
      TailOfPlaces(places, rest);
    }
  }

  lemma TailOfRest(rest: seq<string>)
    requires ValidRest(rest)
    ensures Tail(rest) == Some(("", "", RestriOf(rest)))
  {
    if rest != [] {
      assert !IsPlace(rest[0]);
    }
  }

  lemma TailOfPlaces(places: seq<string>, rest: seq<string>)
    requires places != [] && forall k :: 0 <= k < |places| ==> IsPlace(places[k])
    requires ValidRest(rest)
    ensures Tail(places + rest) ==
      Some((places[0], if |places| > 1 then places[|places| - 1] else "", RestriOf(rest)))
  {
    var r := places + rest;
    var e := |places|;
    assert r[0] == places[0];
    forall k | 1 <= k < e
      ensures IsPlace(r[k])
    {
      assert r[k] == places[k];
    }
    if e < |r| {
      assert r[e] == rest[0];
      assert !IsPlace(rest[0]);
    }
    PlaceRunEndIs(r, 1, e);
    assert r[e..] == rest;
    if e > 1 {
      assert r[e - 1] == places[e - 1];
    }
  }

  lemma LowerAt(s: string, i: nat)
    requires i < |s|
    ensures Lower(s)[i] == LowerChar(s[i])
  {
  }

  /** A transaction word, a dash and a type token form a transaction segment
      that splits back into the two. */
  lemma TransSplitOf(trans: string, typ: string)
    requires Lower(trans) == "arrendar" || Lower(trans) == "comprar"
    requires typ != "" && AllTypeChars(typ)
    ensures TransSplit(trans + "-" + typ) == Some((trans, typ))
  {
    var seg := trans + "-" + typ;
    LowerAt(trans, 0);
    LowerAt(seg, 0);
    assert seg[0] == trans[0];
    if Lower(trans) == "arrendar" {
      assert seg[..9] == trans + "-";
      assert Lower(seg[..9]) == "arrendar-" by {
        forall k | 0 <= k < 9 ensures Lower(seg[..9])[k] == "arrendar-"[k] {
          if k < 8 { LowerAt(trans, k); }
        }
      }
      assert seg[9..] == typ;
      assert seg[..8] == trans;
    } else {
      assert Lower(seg)[0] == 'c';
      assert seg[..8] == trans + "-";
      assert Lower(seg[..8]) == "comprar-" by {
        forall k | 0 <= k < 8 ensures Lower(seg[..8])[k] == "comprar-"[k] {
          if k < 7 { LowerAt(trans, k); }
        }
      }
      if |seg| > 9 {
        LowerAt(seg[..9], 0);
        assert Lower(seg[..9])[0] == 'c';
      }
      assert seg[8..] == typ;
      assert seg[..7] == trans;
    }
  }

  /** A restriction segment is never a transaction segment. */
  lemma ComIsNotTrans(s: string)
    requires IsCom(s)
    ensures TransSplit(s).None?
  {
    if TransSplit(s).Some? {
      var t := TransSplit(s).value.0;
      assert s[3] == t[3];
      LowerAt(t, 3);
      LowerAt(s[..4], 3);
      assert false;
    }
  }

  predicate NoSlash(segs: seq<string>) { forall k :: 0 <= k < |segs| ==> '/' !in segs[k] }

  lemma TransHasNoSlash(trans: string, typ: string)
    requires Lower(trans) == "arrendar" || Lower(trans) == "comprar"
    requires AllTypeChars(typ)
    ensures '/' !in trans + "-" + typ
  {
    var seg := trans + "-" + typ;
    SlashFreeWord(Lower(trans));
    forall k | 0 <= k < |seg| ensures seg[k] != '/' {
      if k < |trans| {
        LowerAt(trans, k);
        assert seg[k] == trans[k];
      } else if k > |trans| {
        assert seg[k] == typ[k - |trans| - 1];
      }
    }
  }

  lemma SlashFreeWord(w: string)
    requires w == "arrendar" || w == "comprar"
    ensures forall k :: 0 <= k < |w| ==> w[k] != '/'
  {
  }

  /** The match is at `n` when the regex can match there and at no later
      segment. */
  lemma LastMatchIs(segs: seq<string>, n: nat)
    requires MatchesAt(segs, n)
    requires forall j :: n < j < |segs| ==> !MatchesAt(segs, j)
    ensures LastMatch(segs) == Some(GroupsAt(segs, n))
  {
    var b := Matching(segs);
    var r := LastTrue(b, |b|);
    assert b[n] && forall j :: n < j < |b| ==> !b[j];
    assert r.value == n;
  }

  /** There is no match exactly when the regex can match at no segment. */
  lemma LastMatchNone(segs: seq<string>)
    ensures LastMatch(segs).None? <==> forall j :: 0 <= j < |segs| ==> !MatchesAt(segs, j)
  {
    var b := Matching(segs);
    assert forall j :: 0 <= j < |segs| ==> b[j] == MatchesAt(segs, j);
  }

  /** Only the transaction segment matches when the places after it are not
      transaction segments. */
  lemma NoLaterMatch(pre: seq<string>, seg: string, places: seq<string>, rest: seq<string>)
    requires forall k :: 0 <= k < |places| ==> TransSplit(places[k]).None?
    requires ValidRest(rest)
    ensures forall j :: |pre| < j < |pre + [seg] + places + rest| ==> !MatchesAt(pre + [seg] + places + rest, j)
  {
    var segs := pre + [seg] + places + rest;
    var n := |pre|;
    assert segs[n + 1..] == places + rest;
    forall j | n < j < |segs| ensures !MatchesAt(segs, j) {
      assert segs[j] == (places + rest)[j - n - 1];
      if j < n + 1 + |places| {
        assert segs[j] == places[j - n - 1];
      } else {
        assert segs[j] == rest[j - n - 1 - |places|];
        if segs[j] != "" { ComIsNotTrans(segs[j]); }
      }
    }
  }

  lemma NoSlashConcat(pre: seq<string>, seg: string, places: seq<string>, rest: seq<string>)
    requires NoSlash(pre) && '/' !in seg && NoSlash(places) && NoSlash(rest)
    ensures NoSlash(pre + [seg] + places + rest)
  {
    var segs := pre + [seg] + places + rest;
    var n := |pre|;
    forall k | 0 <= k < |segs| ensures '/' !in segs[k] {
      if k < n { assert segs[k] == pre[k]; }
      else if k == n { assert segs[k] == seg; }
      else if k < n + 1 + |places| { assert segs[k] == places[k - n - 1]; }
      else { assert segs[k] == rest[k - n - 1 - |places|]; }
    }
  }

  /** Reading a path built from its parts: whatever non-empty segments come
      first, the last transaction segment gives `trans` and `type`, the first
      place after it the location, the last of the further places the
      sub-location, and a closing `com-` segment the restriction. */
  lemma MatchOfPath(pre: seq<string>, trans: string, typ: string, places: seq<string>, rest: seq<string>)
    requires forall k :: 0 <= k < |pre| ==> pre[k] != ""
    requires Lower(trans) == "arrendar" || Lower(trans) == "comprar"
    requires typ != "" && AllTypeChars(typ)
    requires forall k :: 0 <= k < |places| ==> IsPlace(places[k]) && TransSplit(places[k]).None?
    requires ValidRest(rest)
    requires NoSlash(pre) && NoSlash(places) && NoSlash(rest)
    ensures Match("/" + Join(pre + [trans + "-" + typ] + places + rest, "/")) ==
      Some(Groups(trans, typ,
                  if places == [] then "" else places[0],
                  if |places| > 1 then places[|places| - 1] else "",
                  RestriOf(rest)))
  {
    var seg := trans + "-" + typ;
    var segs := pre + [seg] + places + rest;
    var n := |pre|;
    TransHasNoSlash(trans, typ);
    NoSlashConcat(pre, seg, places, rest);
    MatchOfSegments(segs);
    MatchesAtTrans(pre, trans, typ, places, rest);
    NoLaterMatch(pre, seg, places, rest);
    LastMatchIs(segs, n);
  }

  lemma MatchOfSegments(segs: seq<string>)
    requires |segs| >= 1 && NoSlash(segs)
    ensures Match("/" + Join(segs, "/")) == LastMatch(segs)
  {
    SplitJoin(segs, '/');
    var path := "/" + Join(segs, "/");
    assert path[1..] == Join(segs, "/");
  }

  lemma MatchesAtTrans(pre: seq<string>, trans: string, typ: string, places: seq<string>, rest: seq<string>)
    requires forall k :: 0 <= k < |pre| ==> pre[k] != ""
    requires Lower(trans) == "arrendar" || Lower(trans) == "comprar"
    requires typ != "" && AllTypeChars(typ)
    requires forall k :: 0 <= k < |places| ==> IsPlace(places[k])
    requires ValidRest(rest)
    ensures MatchesAt(pre + [trans + "-" + typ] + places + rest, |pre|)
    ensures GroupsAt(pre + [trans + "-" + typ] + places + rest, |pre|) ==
      Groups(trans, typ,
             if places == [] then "" else places[0],
             if |places| > 1 then places[|places| - 1] else "",
             RestriOf(rest))
  {
    TransSplitOf(trans, typ);
    TailOf(places, rest);
    MatchesAtParts(pre, trans + "-" + typ, places, rest, trans, typ, Tail(places + rest).value);
  }

  /** The expression matches right after `pre` with the groups of the
      segment there and of the segments after it. */
  lemma MatchesAtParts(pre: seq<string>, seg: string, places: seq<string>, rest: seq<string>,
                       trans: string, typ: string, tail: (string, string, string))
    requires forall k :: 0 <= k < |pre| ==> pre[k] != ""
    requires TransSplit(seg) == Some((trans, typ)) && Tail(places + rest) == Some(tail)
    ensures MatchesAt(pre + [seg] + places + rest, |pre|)
    ensures GroupsAt(pre + [seg] + places + rest, |pre|) == Groups(trans, typ, tail.0, tail.1, tail.2)
  {
    var segs := pre + [seg] + places + rest;
    assert segs[|pre|] == seg;
    assert segs[|pre| + 1..] == places + rest;
    forall k | 0 <= k < |pre| ensures segs[k] != "" { assert segs[k] == pre[k]; }
  }

  /** The context's transaction is empty exactly when the path regex fails,
      which is when `createUI` returns without touching any data. */
  lemma TransactionEmptyIffNoMatch(path: string, q: Query)
    ensures GetPageContext(path, q).transactionType == "" <==> Match(path).None?
    ensures Match(path).Some? ==> GetPageContext(path, q).transactionType in {"rent", "sale"}
  {
  }

  lemma LowerIs(s: string, t: string)
    requires |s| == |t| && forall i :: 0 <= i < |s| ==> LowerChar(s[i]) == t[i]
    ensures Lower(s) == t
  {
  }

  /** The key starts with `…_area_` exactly for area searches (given a
      transaction the lookup can produce). */
  lemma KeyMarksArea(ctx: Context)
    requires ctx.transactionType in {"rent", "sale", ""}
    ensures StartsWith(StorageKey(ctx), Prefix + "area_") <==> ctx.isAreaSearch
  {
    var k := StorageKey(ctx);
    var n := |Prefix|;
    if !ctx.isAreaSearch {
      assert k[n] == (ctx.transactionType + "_")[0];
      assert (Prefix + "area_")[n] == 'a';
    } else {
      assert k[..n + 5] == Prefix + "area_";
    }
  }

  /** The fields after the property type, as they appear in a key when none
      of them is empty or holds an underscore. */
  function KeyFields(ctx: Context): seq<string> {
    [ctx.transactionType, ctx.propertyType, ctx.location, ctx.subLocation, ctx.ordem] +
    (if ctx.restri == "" then [] else [ctx.restri])
  }

  predicate WellFormed(ctx: Context) {
    ctx.transactionType in {"rent", "sale"} &&
    ctx.propertyType != "" && ctx.location != "" && ctx.subLocation != "" && ctx.ordem != "" &&
    '_' !in ctx.propertyType && '_' !in ctx.location && '_' !in ctx.subLocation &&
    '_' !in ctx.ordem && '_' !in ctx.restri
  }

  function TailFields(ctx: Context): seq<string> {
    [ctx.location, ctx.subLocation, ctx.ordem] + (if ctx.restri == "" then [] else [ctx.restri])
  }

  /** With no empty field and no underscore inside a field, the collapse
      leaves the key alone: it is the fields joined by `_`. */
  lemma KeyOfWellFormed(ctx: Context)
    requires WellFormed(ctx)
    ensures StorageKey(ctx) == Prefix + (if ctx.isAreaSearch then "area_" else "") + Join(KeyFields(ctx), "_")
  {
    var c := Join(TailFields(ctx), "_");
    KeyTailCollapse(ctx);
    KeyIsHeadAndTail(ctx, c);
    FieldsJoinedKey(ctx);
  }

  lemma FieldsJoinedKey(ctx: Context)
    ensures var a := if ctx.isAreaSearch then "area_" else "";
      Prefix + a + ctx.transactionType + "_" + ctx.propertyType + "_" + Join(TailFields(ctx), "_") ==
      Prefix + a + Join(KeyFields(ctx), "_")
  {
    FieldsJoin(ctx);
    var a := if ctx.isAreaSearch then "area_" else "";
    var t := ctx.transactionType + "_" + ctx.propertyType + "_";
    var c := Join(TailFields(ctx), "_");
    assert Prefix + a + t + c == Prefix + a + (t + c);
  }

  lemma KeyIsHeadAndTail(ctx: Context, c: string)
    requires Collapse(ctx.location + "_" + ctx.subLocation + "_" + ctx.ordem + "_" + ctx.restri, '_') == c
    ensures StorageKey(ctx) == Prefix + (if ctx.isAreaSearch then "area_" else "") +
      ctx.transactionType + "_" + ctx.propertyType + "_" + c
  {
  }

  lemma FieldsJoin(ctx: Context)
    ensures Join(KeyFields(ctx), "_") ==
      ctx.transactionType + "_" + ctx.propertyType + "_" + Join(TailFields(ctx), "_")
  {
    var tail := TailFields(ctx);
    assert KeyFields(ctx) == [ctx.transactionType] + ([ctx.propertyType] + tail);
    JoinCons(ctx.propertyType, tail, "_");
    JoinCons(ctx.transactionType, [ctx.propertyType] + tail, "_");
  }

  lemma KeyTailCollapse(ctx: Context)
    requires WellFormed(ctx)
    ensures Collapse(ctx.location + "_" + ctx.subLocation + "_" + ctx.ordem + "_" + ctx.restri, '_') ==
            Join(TailFields(ctx), "_")
  {
    if ctx.restri == "" {
      TailCollapseThree(ctx.location, ctx.subLocation, ctx.ordem);
    } else {
      TailCollapseFour(ctx.location, ctx.subLocation, ctx.ordem, ctx.restri);
    }
  }

  lemma TailCollapseThree(l: string, s: string, o: string)
    requires l != "" && s != "" && o != "" && '_' !in l && '_' !in s && '_' !in o
    ensures Collapse(l + "_" + s + "_" + o + "_" + "", '_') == Join([l, s, o] + [], "_")
  {
    var tail := [l, s, o];
    assert [l, s, o] + [] == tail;
    assert |tail| == 3 && tail[0] == l && tail[1] == s && tail[2] == o;
    CollapseJoin(tail, '_');
    TailJoin(l, s, o, "");
    SepThenEmpty(l + "_" + s + "_" + o, Join(tail, "_"));
  }

  lemma SepThenEmpty(x: string, j: string)
    requires j == x + ""
    ensures x + "_" + "" == j + ['_']
  {
  }

  lemma TailCollapseFour(l: string, s: string, o: string, r: string)
    requires l != "" && s != "" && o != "" && r != ""
    requires '_' !in l && '_' !in s && '_' !in o && '_' !in r
    ensures Collapse(l + "_" + s + "_" + o + "_" + r, '_') == Join([l, s, o] + [r], "_")
  {
    var tail := [l, s, o] + [r];
    assert |tail| == 4 && tail[0] == l && tail[1] == s && tail[2] == o && tail[3] == r;
    CollapseJoin(tail, '_');
    TailJoin(l, s, o, r);
    SepThen(l + "_" + s + "_" + o, r, Join(tail, "_"));
  }

  lemma SepThen(x: string, r: string, j: string)
    requires j == x + (if r == "" then "" else "_" + r) && r != ""
    ensures j == x + "_" + r
  {
  }

  lemma TailJoin(l: string, s: string, o: string, r: string)
    ensures Join([l, s, o] + (if r == "" then [] else [r]), "_") ==
            l + "_" + s + "_" + o + (if r == "" then "" else "_" + r)
  {
    var tail := [l, s, o] + (if r == "" then [] else [r]);
    if r == "" {
      assert tail == [l] + [s, o] && [s, o] == [s] + [o];
      assert Join([o], "_") == o;
      JoinCons(s, [o], "_");
      JoinCons(l, [s, o], "_");
    } else {
      assert tail == [l] + [s, o, r] && [s, o, r] == [s] + [o, r] && [o, r] == [o] + [r];
      assert Join([r], "_") == r;
      JoinCons(o, [r], "_");
      JoinCons(s, [o, r], "_");
      JoinCons(l, [s, o, r], "_");
    }
  }

  /** Well-formed contexts have distinct keys: the key can be split back into
      its fields. */
  lemma KeyInjective(c1: Context, c2: Context)
    requires WellFormed(c1) && WellFormed(c2)
    requires StorageKey(c1) == StorageKey(c2)
    ensures c1 == c2
  {
    KeyMarksArea(c1);
    KeyMarksArea(c2);
    KeyOfWellFormed(c1);
    KeyOfWellFormed(c2);
    var a := if c1.isAreaSearch then "area_" else "";
    StripPrefix(Prefix + a, Join(KeyFields(c1), "_"), Join(KeyFields(c2), "_"));
    FieldsSplitBack(c1);
    FieldsSplitBack(c2);
    FieldsDetermine(c1, c2);
  }

  /** The key is not injective once the sub-location may be empty: a search
      with restriction `r` and no sub-location shares its partition with a
      search whose sub-location is the first one's order and whose order is
      `r` (the order comes from the query string as written). */
  lemma KeyCollision(area: bool, t: string, y: string, l: string, o: string, r: string)
    requires l != "" && o != "" && r != "" && '_' !in l && '_' !in o && '_' !in r
    ensures var c1 := Context(area, t, y, l, "", r, o);
      var c2 := Context(area, t, y, l, o, "", r);
      c1 != c2 && StorageKey(c1) == StorageKey(c2)
  {
    var c1 := Context(area, t, y, l, "", r, o);
    var c2 := Context(area, t, y, l, o, "", r);
    TailsCollide(l, o, r);
    var head := Prefix + (if area then "area_" else "") + t + "_" + y + "_";
    assert StorageKey(c1) == head + Collapse(l + "_" + "" + "_" + o + "_" + r, '_');
    assert StorageKey(c2) == head + Collapse(l + "_" + o + "_" + r + "_" + "", '_');
    assert c1.subLocation != c2.subLocation;
  }

  /** `l__o_r` and `l_o_r_` collapse to the same `l_o_r`. */
  lemma TailsCollide(l: string, o: string, r: string)
    requires l != "" && o != "" && r != "" && '_' !in l && '_' !in o && '_' !in r
    ensures Collapse(l + "_" + "" + "_" + o + "_" + r, '_') == Collapse(l + "_" + o + "_" + r + "_" + "", '_')
  {
    DoubleAfterPlace(l, o, r);
    JoinedTail(l, o, r);
  }

  lemma DoubleAfterPlace(l: string, o: string, r: string)
    ensures Collapse(l + "_" + "" + "_" + o + "_" + r, '_') == Collapse(l + "_" + o + "_" + r, '_')
  {
    var u := ['_'] + o + "_" + r;
    assert l + "_" + "" + "_" + o + "_" + r == l + ['_'] + u;
    assert l + "_" + o + "_" + r == l + u;
    SqueezeDrop(l, u, '_');
  }

  lemma JoinedTail(l: string, o: string, r: string)
    requires l != "" && o != "" && r != "" && '_' !in l && '_' !in o && '_' !in r
    ensures Collapse(l + "_" + o + "_" + r, '_') == l + "_" + o + "_" + r
    ensures Collapse(l + "_" + o + "_" + r + "_" + "", '_') == l + "_" + o + "_" + r
  {
    JoinThree(l, o, r);
    CollapseJoin([l, o, r], '_');
    assert l + "_" + o + "_" + r + "_" + "" == Join([l, o, r], "_") + ['_'];
  }

  lemma JoinThree(l: string, o: string, r: string)
    ensures Join([l, o, r], "_") == l + "_" + o + "_" + r
  {
    JoinCons(o, [r], "_");
    assert [l, o, r] == [l] + [o, r] && [o, r] == [o] + [r];
    JoinCons(l, [o, r], "_");
  }

  lemma StripPrefix(p: string, a: string, b: string)
    requires p + a == p + b
    ensures a == b
  {
    assert a == (p + a)[|p|..];
  }

  lemma FieldsSplitBack(ctx: Context)
    requires WellFormed(ctx)
    ensures Split(Join(KeyFields(ctx), "_"), '_') == KeyFields(ctx)
  {
    SplitJoin(KeyFields(ctx), '_');
  }

  lemma FieldsDetermine(c1: Context, c2: Context)
    requires KeyFields(c1) == KeyFields(c2) && c1.isAreaSearch == c2.isAreaSearch
    ensures c1 == c2
  {
    var f1 := KeyFields(c1);
    assert f1[0] == c1.transactionType && f1[1] == c1.propertyType && f1[2] == c1.location;
    assert f1[3] == c1.subLocation && f1[4] == c1.ordem;
    if c1.restri != "" || c2.restri != "" {
      assert |f1| == 6;
      assert f1[5] == c1.restri && KeyFields(c2)[5] == c2.restri;
    }
  }

  /** An empty location and sub-location leave a doubled `_` after the
      property type: the collapse does not reach it. */
  lemma KeyWithoutLocation(ctx: Context)
    requires ctx.location == "" && ctx.subLocation == "" && ctx.restri == ""
    requires ctx.ordem != "" && '_' !in ctx.ordem
    ensures StorageKey(ctx) ==
      Prefix + (if ctx.isAreaSearch then "area_" else "") + ctx.transactionType + "_" + ctx.propertyType + "__" + ctx.ordem
  {
    TailWithoutLocation(ctx);
    KeyIsHeadAndTail(ctx, ['_'] + ctx.ordem);
    DoubleSeparator(Prefix + (if ctx.isAreaSearch then "area_" else "") + ctx.transactionType + "_" + ctx.propertyType,
                    ctx.ordem);
  }

  lemma TailWithoutLocation(ctx: Context)
    requires ctx.location == "" && ctx.subLocation == "" && ctx.restri == ""
    requires ctx.ordem != "" && '_' !in ctx.ordem
    ensures Collapse(ctx.location + "_" + ctx.subLocation + "_" + ctx.ordem + "_" + ctx.restri, '_') == ['_'] + ctx.ordem
  {
    var x := ctx.location + "_" + ctx.subLocation + "_" + ctx.ordem + "_" + ctx.restri;
    assert x == ['_', '_'] + ctx.ordem + ['_'];
    CollapseJoin([ctx.ordem], '_');
    assert Join([ctx.ordem], "_") == ctx.ordem;
  }

  lemma DoubleSeparator(p: string, o: string)
    ensures p + "_" + (['_'] + o) == p + "__" + o
  {
  }

  /** Two searches that differ only in the area flag never share a key. */
  lemma AreaSeparatesKeys(ctx: Context)
    ensures StorageKey(ctx) != StorageKey(ctx.(isAreaSearch := !ctx.isAreaSearch))
  {
    assert |StorageKey(ctx)| != |StorageKey(ctx.(isAreaSearch := !ctx.isAreaSearch))|;
  }

  lemma LowerConcat(a: string, b: string)
    ensures Lower(a + b) == Lower(a) + Lower(b)
  {
    var r := Lower(a) + Lower(b);
    forall i | 0 <= i < |a + b| ensures r[i] == LowerChar((a + b)[i]) {
      if i < |a| {
        assert (a + b)[i] == a[i];
      } else {
        assert (a + b)[i] == b[i - |a|];
      }
    }
    LowerUnique(a + b, r);
  }

  /** A string that lower-cases `s` character by character is `Lower(s)`. */
  lemma LowerUnique(s: string, r: string)
    requires |r| == |s| && forall i :: 0 <= i < |s| ==> r[i] == LowerChar(s[i])
    ensures Lower(s) == r
  {
    assert forall i :: 0 <= i < |s| ==> Lower(s)[i] == r[i];
  }

  /** A digit-free, letter-free suffix keeps its case. */
  lemma LowerOfDigits(d: string)
    requires AllDigits(d)
    ensures Lower(d) == d
  {
  }

  /** Pagination and map views are not listing pages, whatever precedes
      them. */
  lemma PaginationIsNotListing(a: string, d: string)
    requires d != "" && AllDigits(d)
    ensures !IsListingPage(a + "pagina-" + d)
  {
    LowerPageNumber(a, d);
  }

  lemma LowerPageNumber(a: string, d: string)
    requires d != "" && AllDigits(d)
    ensures EndsWithPageNumber(Lower(a + "pagina-" + d))
  {
    LowerConcat(a + "pagina-", d);
    LowerConcat(a, "pagina-");
    LowerIs("pagina-", "pagina-");
    LowerOfDigits(d);
    var p := Lower(a + "pagina-" + d);
    assert p == Lower(a) + "pagina-" + d;
    assert p[|a|..|a| + 7] == "pagina-";
    assert p[|a| + 7..] == d;
    assert PageNumberAt(p, |a|);
  }

  lemma MapIsNotListing(a: string)
    ensures !IsListingPage(a + "mapa")
  {
    LowerConcat(a, "mapa");
    LowerIs("mapa", "mapa");
    assert EndsWith(Lower(a + "mapa"), "mapa");
  }
}
