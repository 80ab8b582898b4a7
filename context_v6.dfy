/** The search context of drafts 5.0, 6.0, 6.1 and 6.2: substring tests on
    the lower-cased path, a key made of the transaction and the type only,
    and the 6.2 "clear everything" key selection. */
module ContextV6 {
  import opened Text
  import opened Records
  import ContextV85

  const Prefix := "idealista_tracker_"

  /** The transaction test on the lower-cased path: `/arrendar` first, then
      `/venda` or `/comprar`, each word followed by `dash`. Drafts 6.1 and
      6.2 test the bare words (`dash` empty); draft 6.0 wants a `-` after
      them. */
  function Transaction(path: string, dash: string): (t: string)
    ensures t in {"rent", "sale", ""}
    ensures t == "rent" <==> Contains(Lower(path), "/arrendar" + dash)
    ensures t == "sale" <==>
      !Contains(Lower(path), "/arrendar" + dash) &&
      (Contains(Lower(path), "/venda" + dash) || Contains(Lower(path), "/comprar" + dash))
  {
    var p := Lower(path);
    if Contains(p, "/arrendar" + dash) then "rent"
    else if Contains(p, "/venda" + dash) || Contains(p, "/comprar" + dash) then "sale"
    else ""
  }

  /** The 6.1/6.2 type table, in declaration order. */
  const TypeTable: seq<(string, string)> := [
    ("casas", "houses"), ("apartamentos", "apartments"), ("moradias", "villages"),
    ("escritorios", "offices"), ("lojas", "stores"), ("quintas", "farms"), ("terrenos", "lands"),
    ("garagens", "parking"), ("quartos", "rooms"), ("estudios", "studios")]

  /** The key occurs in the path, or `-` and the key with its first `os`
      turned into `o` (the singular `-apartamento`, `-quarto`, …). */
  predicate EntryMatches(p: string, key: string) {
    Contains(p, key) || Contains(p, "-" + ReplaceFirst(key, "os", "o"))
  }

  /** No entry of the table names the fallback type. */
  lemma TableValues()
    ensures forall k :: 0 <= k < |TypeTable| ==> TypeTable[k].1 != "other"
  {
  }

  /** The type of the first entry of `table` from `i` on that matches, or
      `other`. */
  function FirstIn(table: seq<(string, string)>, p: string, i: nat): (t: string)
    requires i <= |table|
    requires forall k :: 0 <= k < |table| ==> table[k].1 != "other"
    ensures t == "other" <==> forall k :: i <= k < |table| ==> !EntryMatches(p, table[k].0)
    ensures t != "other" ==>
      exists k :: i <= k < |table| && EntryMatches(p, table[k].0) && t == table[k].1 &&
        forall j :: i <= j < k ==> !EntryMatches(p, table[j].0)
    decreases |table| - i
  {
    if i == |table| then "other"
    else if EntryMatches(p, table[i].0) then table[i].1
    else FirstIn(table, p, i + 1)
  }

  /** The type of the first entry of the 6.1/6.2 table from `i` on that
      matches, or `other`. */
  function FirstType(p: string, i: nat): (t: string)
    requires i <= |TypeTable|
    ensures t == "other" <==> forall k :: i <= k < |TypeTable| ==> !EntryMatches(p, TypeTable[k].0)
    ensures t != "other" ==>
      exists k :: i <= k < |TypeTable| && EntryMatches(p, TypeTable[k].0) && t == TypeTable[k].1 &&
        forall j :: i <= j < k ==> !EntryMatches(p, TypeTable[j].0)
  {
    TableValues();
    FirstIn(TypeTable, p, i)
  }

  /** `getPageContext` of 6.1 and 6.2: the transaction by substring tests,
      the type by the table walk. */
  method GetPageContext(path: string) returns (ctx: Context)
    ensures ctx == Context(false, Transaction(path, ""), FirstType(Lower(path), 0), "", "", "", "")
  {
    var p := Lower(path);
    assert "/arrendar" + "" == "/arrendar" && "/venda" + "" == "/venda" && "/comprar" + "" == "/comprar";
    var transactionType := "";
    if Contains(p, "/arrendar") {
      transactionType := "rent";
    } else if Contains(p, "/venda") || Contains(p, "/comprar") {
      transactionType := "sale";
    }
    var propertyType := WalkTypeTable(p);
    ctx := Context(false, transactionType, propertyType, "", "", "", "");
  }

  /** The table is walked in order and the walk stops at the first entry
      found in the path; `other` when none is. */
  method WalkTypeTable(p: string) returns (propertyType: string)
    ensures propertyType == FirstType(p, 0)
  {
    propertyType := "other";
    var i := 0;
    while i < |TypeTable|
      invariant 0 <= i <= |TypeTable|
      invariant propertyType == "other"
      invariant FirstType(p, i) == FirstType(p, 0)
    {
      if EntryMatches(p, TypeTable[i].0) {
        TakeEntry(p, i);
        propertyType := TypeTable[i].1;
        return;
      }
      SkipEntry(p, i);
      i := i + 1;
    }
  }

  /** `casas` comes first: a path naming houses is a houses search whatever
      else it names. */
  lemma HousesComeFirst(p: string)
    requires Contains(p, "casas")
    ensures FirstType(p, 0) == "houses"
  {
  }

  /** The singular form counts: `-apartamento` makes an apartments search
      when no house is named. */
  lemma SingularMatches(p: string)
    requires Contains(p, "-apartamento") && !Contains(p, "casas")
    ensures FirstType(p, 0) == "apartments"
  {
    CasasMisses(p);
    SkipEntry(p, 0);
    ApartmentsMatch(p);
    TakeEntry(p, 1);
  }

  lemma CasasMisses(p: string)
    requires !Contains(p, "casas")
    ensures !EntryMatches(p, TypeTable[0].0)
  {
    CasasVariant();
    NoDashedWord(p, "casas");
  }

  lemma ApartmentsMatch(p: string)
    requires Contains(p, "-apartamento")
    ensures EntryMatches(p, TypeTable[1].0)
  {
    var key := TypeTable[1].0;
    assert key == "apartament" + "os";
    assert "-" + ("apartament" + "o") == "-apartamento";
    SingularOf(p, key, "apartament");
  }

  lemma SingularOf(p: string, key: string, stem: string)
    requires 's' !in stem && stem != [] && stem[|stem| - 1] != 'o'
    requires key == stem + "os" && Contains(p, "-" + (stem + "o"))
    ensures EntryMatches(p, key)
  {
    StemVariant(stem);
  }

  lemma NoDashedWord(p: string, w: string)
    requires !Contains(p, w)
    ensures !Contains(p, "-" + w)
  {
    if Contains(p, "-" + w) {
      ContainsParts(p, "-", w);
    }
  }

  lemma SkipEntry(p: string, i: nat)
    requires i < |TypeTable| && !EntryMatches(p, TypeTable[i].0)
    ensures FirstType(p, i) == FirstType(p, i + 1)
  {
  }

  lemma TakeEntry(p: string, i: nat)
    requires i < |TypeTable| && EntryMatches(p, TypeTable[i].0)
    ensures FirstType(p, i) == TypeTable[i].1
  {
  }

  lemma CasasVariant()
    ensures "-" + ReplaceFirst("casas", "os", "o") == "-casas"
  {
    assert !Contains("casas", "os");
  }

  /** The singular of a plural in `-os`, for a stem where `os` cannot
      start earlier. */
  lemma StemVariant(a: string)
    requires 's' !in a && a != [] && a[|a| - 1] != 'o'
    ensures ReplaceFirst(a + "os", "os", "o") == a + "o"
  {
    ReplaceFirstAfter(a, "os", "os", "o");
    OsVariant();
  }

  lemma OsVariant()
    ensures ReplaceFirst("os", "os", "o") == "o"
  {
  }

  /** `getStorageKey` of 6.0, 6.1 and 6.2. */
  function StorageKey(ctx: Context): (k: string)
    ensures StartsWith(k, Prefix)
    ensures '_' !in ctx.transactionType ==>
      var i := |Prefix| + IndexOf(k[|Prefix|..], '_');
      i < |k| && k[|Prefix|..i] == ctx.transactionType && k[i + 1..] == ctx.propertyType
  {
    KeyCut(ctx.transactionType, ctx.propertyType);
    Prefix + ctx.transactionType + "_" + ctx.propertyType
  }

  lemma KeyCut(t: string, y: string)
    ensures '_' !in t ==>
      var k := Prefix + t + "_" + y;
      var i := |Prefix| + IndexOf(k[|Prefix|..], '_');
      i < |k| && k[|Prefix|..i] == t && k[i + 1..] == y
  {
    if '_' !in t {
      var k := Prefix + t + "_" + y;
      assert k[|Prefix|..] == t + "_" + y;
      FirstUnderscore(t, y);
    }
  }

  lemma FirstUnderscore(t: string, y: string)
    requires '_' !in t
    ensures IndexOf(t + "_" + y, '_') == |t|
  {
    var s := t + "_" + y;
    assert s[|t|] == '_';
    assert forall j :: 0 <= j < |t| ==> s[j] == t[j];
    IndexOfFirst(s, '_', |t|);
  }

  /** The key determines the transaction and the type. */
  lemma KeyInjective(a: Context, b: Context)
    requires '_' !in a.transactionType && '_' !in b.transactionType
    requires StorageKey(a) == StorageKey(b)
    ensures a.transactionType == b.transactionType && a.propertyType == b.propertyType
  {
    var k := StorageKey(a);
    var i := |Prefix| + IndexOf(k[|Prefix|..], '_');
    assert a.transactionType == k[|Prefix|..i] == b.transactionType;
  }

  /** `clearAllData`: every key under the prefix is deleted, one at a time;
      `keys` is what `GM.listValues` returns. */
  method ClearAllData(store: Store, keys: seq<string>) returns (cleared: Store)
    requires forall k :: k in store <==> k in keys
    ensures cleared == map k | k in store && !StartsWith(k, Prefix) :: store[k]
  {
    cleared := store;
    var i := 0;
    while i < |keys|
      invariant 0 <= i <= |keys|
      invariant forall k :: k in cleared <==> k in store && !(k in keys[..i] && StartsWith(k, Prefix))
      invariant forall k :: k in cleared ==> cleared[k] == store[k]
    {
      if StartsWith(keys[i], Prefix) {
        cleared := map k | k in cleared && k != keys[i] :: cleared[k];
      }
      assert keys[..i + 1] == keys[..i] + [keys[i]];
      i := i + 1;
    }
    assert keys[..i] == keys;
  }

  /** The 7.x and 8.x prefix extends this one, so clearing from 6.2 erases
      the partitions of the later drafts too. */
  lemma ClearReachesLaterDrafts(k: string)
    requires StartsWith(k, ContextV85.Prefix)
    ensures StartsWith(k, Prefix)
  {
    assert ContextV85.Prefix[..|Prefix|] == Prefix;
    assert k[..|Prefix|] == k[..|ContextV85.Prefix|][..|Prefix|];
  }

  /** The single 5.0 key is outside the prefix and survives the clear. */
  const Key50 := "idealista_ultimate_tracker_v2"

  lemma ClearSpares50()
    ensures !StartsWith(Key50, Prefix)
  {
    assert Key50[10] != Prefix[10];
  }

  /** The lower-cased path names the type word `w` for 6.0: `-w`, or, when
      `folder` holds, `/w/`. */
  predicate Names60(p: string, w: string, folder: bool) {
    Contains(p, "-" + w) || (folder && Contains(p, "/" + w + "/"))
  }

  /** Draft 6.0's type test: four types, and `''` when none is named. */
  function PropertyType60(path: string): (t: string)
    ensures t in {"houses", "apartments", "offices", "villages", ""}
    ensures t == "houses" <==> Names60(Lower(path), "casas", true)
    ensures t == "apartments" <==>
      !Names60(Lower(path), "casas", true) && Names60(Lower(path), "apartamentos", true)
    ensures t == "offices" <==>
      !Names60(Lower(path), "casas", true) && !Names60(Lower(path), "apartamentos", true) &&
      Names60(Lower(path), "escritorios", true)
    ensures t == "villages" <==>
      !Names60(Lower(path), "casas", true) && !Names60(Lower(path), "apartamentos", true) &&
      !Names60(Lower(path), "escritorios", true) && Names60(Lower(path), "moradias", false)
  {
    var p := Lower(path);
    if Names60(p, "casas", true) then "houses"
    else if Names60(p, "apartamentos", true) then "apartments"
    else if Names60(p, "escritorios", true) then "offices"
    else if Names60(p, "moradias", false) then "villages"
    else ""
  }

  /** `createUI` of 6.0 goes on only with both fields known. */
  predicate Tracks60(path: string) {
    Transaction(path, "-") != "" && PropertyType60(path) != ""
  }

  /** What 6.0 calls a rental, the later 6.x drafts do too. */
  lemma Rent60StaysRent(path: string)
    requires Transaction(path, "-") == "rent"
    ensures Transaction(path, "") == "rent"
  {
    assert "/arrendar" + "" == "/arrendar";
    ContainsParts(Lower(path), "/arrendar", "-");
  }

  /** What 6.0 calls a sale is classified by the later 6.x drafts as well
      (as a rental if `/arrendar` also occurs). */
  lemma Sale60StaysClassified(path: string)
    requires Transaction(path, "-") == "sale"
    ensures Transaction(path, "") != ""
  {
    var p := Lower(path);
    assert "/arrendar" + "" == "/arrendar" && "/venda" + "" == "/venda" && "/comprar" + "" == "/comprar";
    if Contains(p, "/venda" + "-") {
      ContainsParts(p, "/venda", "-");
    } else {
      ContainsParts(p, "/comprar", "-");
    }
  }

  /** A houses search for 6.0 is a houses search for 6.1 and 6.2. */
  lemma Houses60StaysHouses(path: string)
    requires PropertyType60(path) == "houses"
    ensures FirstType(Lower(path), 0) == "houses"
  {
    var p := Lower(path);
    if Contains(p, "-" + "casas") {
      ContainsParts(p, "-", "casas");
    } else {
      assert "/" + "casas" + "/" == "/" + "casas/";
      ContainsParts(p, "/", "casas/");
      assert "casas/" == "casas" + "/";
      ContainsParts(p, "casas", "/");
    }
  }

  /** `isListingPage` of 5.0: one of the valid patterns and none of the
      invalid ones, on the lower-cased path. */
  predicate ValidPattern50(p: string) {
    Contains(p, "/arrendar-casas/") || Contains(p, "/venda-casas/") || Contains(p, "/comprar-casas/") ||
    Contains(p, "/pesquisar-casas/") || Contains(p, "/areas/arrendar-casas/") || Contains(p, "/areas/venda-casas/") ||
    Contains(p, "/casas/") || Contains(p, "/apartamentos/") || Contains(p, "/moradias/")
  }

  predicate IsListingPage50(path: string)
    ensures var p := Lower(path);
      IsListingPage50(path) ==>
        Contains(p, "/arrendar-casas/") || Contains(p, "/venda-casas/") || Contains(p, "/comprar-casas/") ||
        Contains(p, "/pesquisar-casas/") || Contains(p, "/casas/") || Contains(p, "/apartamentos/") ||
        Contains(p, "/moradias/")
  {
    var p := Lower(path);
    AreasPatternsRedundant(p);
    ValidPattern50(p) &&
    !(Contains(p, "/imovel/") || Contains(p, "/blog/") || Contains(p, "/ajuda/") || Contains(p, "/contato/") ||
      Contains(p, "/perfil/"))
  }

  /** The two `/areas/` patterns add nothing: each contains a pattern
      already in the list. */
  lemma AreasPatternsRedundant(p: string)
    ensures ValidPattern50(p) <==>
      Contains(p, "/arrendar-casas/") || Contains(p, "/venda-casas/") || Contains(p, "/comprar-casas/") ||
      Contains(p, "/pesquisar-casas/") || Contains(p, "/casas/") || Contains(p, "/apartamentos/") ||
      Contains(p, "/moradias/")
  {
    if Contains(p, "/areas/arrendar-casas/") {
      assert "/areas/arrendar-casas/" == "/areas" + "/arrendar-casas/";
      ContainsParts(p, "/areas", "/arrendar-casas/");
    }
    if Contains(p, "/areas/venda-casas/") {
      assert "/areas/venda-casas/" == "/areas" + "/venda-casas/";
      ContainsParts(p, "/areas", "/venda-casas/");
    }
  }
}
