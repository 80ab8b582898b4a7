/** The search context of drafts 7.7, 8.0 and 8.1: the path is cut at `/`
    and its first segment at `-`, the lookups are case-sensitive, and the
    key trims trailing underscores instead of collapsing them. The three
    drafts share this code; they differ only in the listing-page test. */
module ContextSplit {
  import opened Text
  import opened Records
  import opened Url
  import ContextV85

  /** `parts[i] || ''`: a missing piece reads as the empty string. */
  function Piece(parts: seq<string>, i: nat): string {
    if i < |parts| then parts[i] else ""
  }

  /** `{arrendar:'rent', comprar:'sale', venda:'sale'}[trans] || ''`. */
  function TransactionType(trans: string): (t: string)
    ensures t in {"rent", "sale", ""}
    ensures t == "rent" <==> trans == "arrendar"
    ensures t == "sale" <==> trans == "comprar" || trans == "venda"
  {
    if trans == "arrendar" then "rent" else if trans == "comprar" || trans == "venda" then "sale" else ""
  }

  /** The six-entry object literal of the type lookup. */
  const TypeTable: map<string, string> := map[
    "casas" := "houses", "apartamentos" := "apartments", "quartos" := "rooms",
    "escritorios" := "offices", "garagens" := "parking", "terrenos" := "lands"]

  /** The type table, looked up on the token as written; anything else is
      `'other'`. */
  function PropertyType(typ: string): (t: string)
    ensures typ in TypeTable ==> t == TypeTable[typ]
    ensures typ !in TypeTable ==> t == "other"
    ensures t != ""
  {
    if typ == "casas" then "houses"
    else if typ == "apartamentos" then "apartments"
    else if typ == "quartos" then "rooms"
    else if typ == "escritorios" then "offices"
    else if typ == "garagens" then "parking"
    else if typ == "terrenos" then "lands"
    else "other"
  }

  function GetPageContext(path: string, q: Query): (ctx: Context)
    ensures ctx.isAreaSearch <==> Has(q, "shape")
    ensures ctx.ordem == Ordem(q) && ctx.restri == ""
    ensures ctx.transactionType in {"rent", "sale", ""} && ctx.propertyType != ""
    ensures '/' !in ctx.location && '/' !in ctx.subLocation
  {
    var segs := Split(path, '/');
    var parts := Split(Piece(segs, 1), '-');
    Context(Has(q, "shape"), TransactionType(Piece(parts, 0)), PropertyType(Piece(parts, 1)),
            Piece(segs, 2), Piece(segs, 3), "", Ordem(q))
  }

  const Prefix := ContextV85.Prefix

  /** `getStorageKey`: only the second template literal is trimmed. */
  function StorageKey(ctx: Context): (k: string)
    ensures StartsWith(k, ContextV85.KeyHead(ctx))
    ensures var tail := k[|ContextV85.KeyHead(ctx)|..];
      var raw := ctx.location + "_" + ctx.subLocation + "_" + ctx.ordem;
      (tail == [] || tail[|tail| - 1] != '_') && StartsWith(raw, tail) &&
      forall i :: |tail| <= i < |raw| ==> raw[i] == '_'
  {
    Prefix + (if ctx.isAreaSearch then "area_" else "") + ctx.transactionType + "_" + ctx.propertyType + "_" +
    TrimTrailing(ctx.location + "_" + ctx.subLocation + "_" + ctx.ordem, '_')
  }

  /** `^\/(comprar|arrendar)-.+` on the lower-cased path. */
  predicate StartsWithTransaction(p: string) {
    (StartsWith(p, "/comprar-") && |p| > 9) || (StartsWith(p, "/arrendar-") && |p| > 10)
  }

  /** `pagina-\d+` matches at index `i`, anywhere in the path. */
  predicate PageAt(p: string, i: nat) {
    i + 7 < |p| && p[i..i + 7] == "pagina-" && IsDigit(p[i + 7])
  }

  predicate HasPageNumber(p: string) {
    exists i: nat :: i < |p| && PageAt(p, i)
  }

  /** Drafts 8.0 and 8.1: the forbidden words may appear anywhere, so every
      page they track, draft 7.7 tracks too. */
  predicate IsListingPage80(path: string)
    ensures IsListingPage80(path) ==> IsListingPage77(path)
  {
    var p := Lower(path);
    EndingsOccur(p);
    StartsWithTransaction(p) &&
    !(Contains(p, "imovel") || Contains(p, "blog") || Contains(p, "ajuda") || Contains(p, "contato") ||
      Contains(p, "mapa") || HasPageNumber(p))
  }

  /** Draft 7.7: `mapa` and the page number only count at the end. Every
      page it tracks, the current draft tracks too: its transaction test is
      not anchored and its forbidden set is the same. */
  predicate IsListingPage77(path: string)
    ensures IsListingPage77(path) ==> ContextV85.IsListingPage(path)
  {
    var p := Lower(path);
    assert StartsWithTransaction(p) ==> ContextV85.TransSegmentAt(p, 0);
    StartsWithTransaction(p) &&
    !(Contains(p, "imovel") || Contains(p, "blog") || Contains(p, "ajuda") || Contains(p, "contato") ||
      EndsWith(p, "mapa") || ContextV85.EndsWithPageNumber(p))
  }

  /** A path that ends in `mapa` or in `pagina-N` contains it. */
  lemma EndingsOccur(p: string)
    ensures EndsWith(p, "mapa") ==> Contains(p, "mapa")
    ensures ContextV85.EndsWithPageNumber(p) ==> HasPageNumber(p)
  {
    if EndsWith(p, "mapa") {
      ContainsAt(p, "mapa", |p| - 4);
    }
    if ContextV85.EndsWithPageNumber(p) {
      var i: nat :| i < |p| && ContextV85.PageNumberAt(p, i);
      assert PageAt(p, i);
    }
  }

  /** A map view is refused by 8.0 wherever `mapa` stands, by 7.7 only at the
      end: `/comprar-casas/mapa-lisboa/` is tracked by 7.7 alone. */
  lemma MapInsidePath(a: string, b: string)
    requires b != "" && b[|b| - 1] == '/'
    ensures !IsListingPage80(a + "mapa" + b)
    ensures !EndsWith(Lower(a + "mapa" + b), "mapa")
  {
    LowerAround(a, b);
    var p := Lower(a + "mapa" + b);
    ContainsAt(p, "mapa", |Lower(a)|);
    assert p[|p| - 1] == '/' by { assert p[|p| - 1] == Lower(b)[|b| - 1]; }
  }

  lemma LowerAround(a: string, b: string)
    ensures Lower(a + "mapa" + b) == Lower(a) + "mapa" + Lower(b)
  {
    ContextV85.LowerConcat(a + "mapa", b);
    ContextV85.LowerConcat(a, "mapa");
    ContextV85.LowerIs("mapa", "mapa");
  }

  /** The pieces of a well-formed path come back as written: the first
      segment splits into transaction and type, the next two are the
      location and sub-location. */
  lemma {:induction false} ContextOfPath(trans: string, typ: string, loc: string, sub: string, rest: seq<string>, q: Query)
    requires '/' !in trans && '-' !in trans && '/' !in typ && '-' !in typ
    requires '/' !in loc && '/' !in sub
    requires forall k :: 0 <= k < |rest| ==> '/' !in rest[k]
    ensures GetPageContext("/" + Join([trans + "-" + typ, loc, sub] + rest, "/"), q) ==
      Context(Has(q, "shape"), TransactionType(trans), PropertyType(typ), loc, sub, "", Ordem(q))
  {
    var segs := ["", trans + "-" + typ, loc, sub] + rest;
    var tail := [trans + "-" + typ, loc, sub] + rest;
    assert segs == [""] + tail;
    JoinCons("", tail, "/");
    assert "/" + Join(tail, "/") == Join(segs, "/");
    SplitJoin(segs, '/');
    assert Join([trans, typ], "-") == trans + "-" + typ by { JoinCons(trans, [typ], "-"); }
    SplitJoin([trans, typ], '-');
  }

  /** A search without location, such as `/comprar-casas`, leaves both
      location fields empty. */
  lemma {:induction false} ContextWithoutLocation(trans: string, typ: string, q: Query)
    requires '/' !in trans && '-' !in trans && '/' !in typ && '-' !in typ
    ensures GetPageContext("/" + trans + "-" + typ, q) ==
      Context(Has(q, "shape"), TransactionType(trans), PropertyType(typ), "", "", "", Ordem(q))
  {
    var seg := trans + "-" + typ;
    assert '/' !in seg;
    assert "/" + trans + "-" + typ == "/" + seg;
    SplitJoin(["", seg], '/');
    assert Join(["", seg], "/") == "/" + seg by { JoinCons("", [seg], "/"); }
    assert Join([trans, typ], "-") == seg by { JoinCons(trans, [typ], "-"); }
    SplitJoin([trans, typ], '-');
  }

  /** The lookups are case-sensitive here but not in the current draft:
      `/Arrendar-casas` is a rental search only for the latter. */
  lemma TransactionIsCaseSensitive()
    ensures TransactionType("Arrendar") == ""
    ensures ContextV85.TransactionType("Arrendar") == "rent"
  {
    ContextV85.LowerIs("Arrendar", "arrendar");
  }

  /** A type outside the table is `other` here; the current draft keeps the
      token itself. */
  lemma UnknownTypeIsOther()
    ensures PropertyType("moradias") == "other"
    ensures ContextV85.PropertyType("moradias") == "moradias"
  {
    ContextV85.LowerIs("moradias", "moradias");
    OutsideTables("moradias");
  }

  /** A token starting with `m` is in neither type table. */
  lemma OutsideTables(t: string)
    requires |t| > 0 && t[0] == 'm'
    ensures PropertyType(t) == "other"
    ensures Lower(t) == t ==> ContextV85.PropertyType(t) == t
  {
    NotInTables(t);
  }

  lemma NotInTables(t: string)
    requires |t| > 0 && t[0] == 'm'
    ensures t !in TypeTable && t !in ContextV85.TypeTable
  {
    var keys := ["casas", "apartamentos", "quarto", "quartos", "escritorios", "garagens", "terrenos"];
    forall u | u in keys ensures t != u {
      assert u[0] != 'm';
    }
    assert TypeTable.Keys <= set u | u in keys;
    assert ContextV85.TypeTable.Keys <= set u | u in keys;
  }

  /** With every field present and free of `_`, the key is the fields
      joined by `_`, the same key the current draft computes. */
  lemma KeyOfFullContext(ctx: Context)
    requires ContextV85.WellFormed(ctx) && ctx.restri == ""
    ensures StorageKey(ctx) == Prefix + (if ctx.isAreaSearch then "area_" else "") +
      Join([ctx.transactionType, ctx.propertyType, ctx.location, ctx.subLocation, ctx.ordem], "_")
    ensures StorageKey(ctx) == ContextV85.StorageKey(ctx)
  {
    var o := ctx.ordem;
    assert o[|o| - 1] != '_' by { assert o[|o| - 1] in o; }
    var tail := ctx.location + "_" + ctx.subLocation + "_" + o;
    assert TrimTrailing(tail, '_') == tail;
    var a := if ctx.isAreaSearch then "area_" else "";
    assert StorageKey(ctx) == Prefix + a + ctx.transactionType + "_" + ctx.propertyType + "_" + tail;
    JoinFive(ctx.transactionType, ctx.propertyType, ctx.location, ctx.subLocation, o);
    KeyRegroup(Prefix + a, ctx.transactionType, ctx.propertyType, tail);
    ContextV85.KeyOfWellFormed(ctx);
    assert ContextV85.KeyFields(ctx) == [ctx.transactionType, ctx.propertyType, ctx.location, ctx.subLocation, o];
  }

  lemma KeyIsHeadAndTail(ctx: Context, c: string)
    requires TrimTrailing(ctx.location + "_" + ctx.subLocation + "_" + ctx.ordem, '_') == c
    ensures StorageKey(ctx) == Prefix + (if ctx.isAreaSearch then "area_" else "") +
      ctx.transactionType + "_" + ctx.propertyType + "_" + c
  {
  }

  lemma JoinFive(t: string, y: string, l: string, s: string, o: string)
    ensures Join([t, y, l, s, o], "_") == t + "_" + y + "_" + (l + "_" + s + "_" + o)
  {
    JoinCons(s, [o], "_");
    assert [l, s, o] == [l] + [s, o];
    JoinCons(l, [s, o], "_");
    assert [y, l, s, o] == [y] + [l, s, o];
    JoinCons(y, [l, s, o], "_");
    assert [t, y, l, s, o] == [t] + [y, l, s, o];
    JoinCons(t, [y, l, s, o], "_");
  }

  lemma KeyRegroup(pa: string, t: string, y: string, tail: string)
    ensures pa + t + "_" + y + "_" + tail == pa + (t + "_" + y + "_" + tail)
  {
  }

  /** Without location the drafts part ways: this key keeps three
      underscores before the order, the current draft's only two, so a
      partition written by 8.1 for such a search is not the one 8.5 reads. */
  lemma KeyWithoutLocation(ctx: Context)
    requires ctx.location == "" && ctx.subLocation == "" && ctx.restri == ""
    requires ctx.ordem != "" && '_' !in ctx.ordem
    ensures StorageKey(ctx) ==
      Prefix + (if ctx.isAreaSearch then "area_" else "") + ctx.transactionType + "_" + ctx.propertyType + "___" + ctx.ordem
    ensures StorageKey(ctx) != ContextV85.StorageKey(ctx)
  {
    TrimWithoutLocation(ctx);
    KeyIsHeadAndTail(ctx, "__" + ctx.ordem);
    ContextV85.KeyWithoutLocation(ctx);
    ThreeNotTwo(Prefix + (if ctx.isAreaSearch then "area_" else "") + ctx.transactionType + "_" + ctx.propertyType,
                ctx.ordem);
  }

  lemma TrimWithoutLocation(ctx: Context)
    requires ctx.location == "" && ctx.subLocation == "" && ctx.ordem != "" && '_' !in ctx.ordem
    ensures TrimTrailing(ctx.location + "_" + ctx.subLocation + "_" + ctx.ordem, '_') == "__" + ctx.ordem
  {
    var o := ctx.ordem;
    assert o[|o| - 1] != '_' by { assert o[|o| - 1] in o; }
    assert ctx.location + "_" + ctx.subLocation + "_" + o == "__" + o;
  }

  lemma ThreeNotTwo(h: string, o: string)
    ensures h + "_" + ("__" + o) == h + "___" + o
    ensures h + "___" + o != h + "__" + o
  {
    assert |h + "___" + o| == |h + "__" + o| + 1;
  }
}
