/** Sales statistics of modules/stats.py: the summary over validated orders
    and the catalogue, and the top-sellers ranking. Amounts are integer cents. */
module Stats {
  import opened Common
  import opened Produits
  import opened Commandes

  // ---------------------------------------------------------------------
  // Summary (`calculer_statistiques`)

  /** `[c for c in commandes if c["statut"] == "validee"]`. */
  function Valides(cs: seq<Order>): (v: seq<Order>)
    ensures |v| <= |cs|
    ensures forall c :: c in v <==> c in cs && c.statut == Validee
  {
    if cs == [] then []
    else
      var last := cs[|cs| - 1];
      assert cs == cs[..|cs| - 1] + [last];
      Valides(cs[..|cs| - 1]) + (if last.statut == Validee then [last] else [])
  }

  function SumTotal(cs: seq<Order>): int
  {
    if cs == [] then 0 else SumTotal(cs[..|cs| - 1]) + cs[|cs| - 1].total
  }

  function SumQuantite(cs: seq<Order>): int
  {
    if cs == [] then 0 else SumQuantite(cs[..|cs| - 1]) + cs[|cs| - 1].quantite
  }

  /** `sum(p["prix"] * p["quantite"] for p in produits)`. */
  function ValeurStock(ps: seq<Product>): int
  {
    if ps == [] then 0 else ValeurStock(ps[..|ps| - 1]) + ps[|ps| - 1].prix * ps[|ps| - 1].quantite
  }

  datatype Statistiques = Statistiques(totalCommandes: nat, chiffreAffaires: int, produitsVendus: int,
                                       nombreProduits: nat, valeurStock: int)

  function CalculerStatistiques(cs: seq<Order>, ps: seq<Product>): (r: Statistiques)
    ensures r.totalCommandes <= |cs|
    ensures r.nombreProduits == |ps|
  {
    var v := Valides(cs);
    Statistiques(|v|, SumTotal(v), SumQuantite(v), |ps|, ValeurStock(ps))
  }

  /** What an order contributes to each summary figure: nothing unless it is validated. */
  function CountIfValidee(c: Order): int { if c.statut == Validee then 1 else 0 }
  function TotalIfValidee(c: Order): int { if c.statut == Validee then c.total else 0 }
  function QuantiteIfValidee(c: Order): int { if c.statut == Validee then c.quantite else 0 }

  /** The summary figures as sums over all orders, each order counted only
      when validated. */
  function CountValidees(cs: seq<Order>): int
  {
    if cs == [] then 0 else CountValidees(cs[..|cs| - 1]) + CountIfValidee(cs[|cs| - 1])
  }

  function RevenueValidees(cs: seq<Order>): int
  {
    if cs == [] then 0 else RevenueValidees(cs[..|cs| - 1]) + TotalIfValidee(cs[|cs| - 1])
  }

  function UnitsValidees(cs: seq<Order>): int
  {
    if cs == [] then 0 else UnitsValidees(cs[..|cs| - 1]) + QuantiteIfValidee(cs[|cs| - 1])
  }

  lemma {:induction false} ValidesSums(cs: seq<Order>)
    ensures |Valides(cs)| == CountValidees(cs)
    ensures SumTotal(Valides(cs)) == RevenueValidees(cs)
    ensures SumQuantite(Valides(cs)) == UnitsValidees(cs)
  {
    if cs != [] {
      var init := cs[..|cs| - 1];
      var last := cs[|cs| - 1];
      ValidesSums(init);
      var v := Valides(cs);
      if last.statut == Validee {
        assert v == Valides(init) + [last];
        assert v[..|v| - 1] == Valides(init);
      } else {
        assert v == Valides(init);
      }
    }
  }

  /** Only validated orders are counted: the number, revenue and units of
      the summary are the sums over all orders of what validated ones
      contribute. */
  lemma SummaryCountsOnlyValidated(cs: seq<Order>, ps: seq<Product>)
    ensures var s := CalculerStatistiques(cs, ps);
      && s.totalCommandes == CountValidees(cs)
      && s.chiffreAffaires == RevenueValidees(cs)
      && s.produitsVendus == UnitsValidees(cs)
      && s.nombreProduits == |ps|
  {
    ValidesSums(cs);
  }

  /** Replacing one order changes each sum by the difference of contributions. */
  lemma {:induction false} SumsAfterUpdate(cs: seq<Order>, k: nat, c: Order)
    requires k < |cs|
    ensures CountValidees(cs[k := c]) == CountValidees(cs) - CountIfValidee(cs[k]) + CountIfValidee(c)
    ensures RevenueValidees(cs[k := c]) == RevenueValidees(cs) - TotalIfValidee(cs[k]) + TotalIfValidee(c)
    ensures UnitsValidees(cs[k := c]) == UnitsValidees(cs) - QuantiteIfValidee(cs[k]) + QuantiteIfValidee(c)
  {
    var n := |cs|;
    if k < n - 1 {
      SumsAfterUpdate(cs[..n - 1], k, c);
      assert cs[k := c][..n - 1] == cs[..n - 1][k := c];
    } else {
      assert cs[k := c][..n - 1] == cs[..n - 1];
    }
  }

  /** Validating an order adds exactly that order to the summary; creating
      one (still `en_attente`) leaves the order figures unchanged. */
  lemma ValiderAddsToSummary(t: Tables, id: int)
    requires Valider(t, id).result.Pass?
    ensures var c := t.commandes[FindOrder(t.commandes, id).value];
      var before := CalculerStatistiques(t.commandes, t.produits);
      var after := CalculerStatistiques(Valider(t, id).tables.commandes, t.produits);
      && after.totalCommandes == before.totalCommandes + 1
      && after.chiffreAffaires == before.chiffreAffaires + c.total
      && after.produitsVendus == before.produitsVendus + c.quantite
  {
    var k := FindOrder(t.commandes, id).value;
    var c := t.commandes[k];
    SumsAfterUpdate(t.commandes, k, c.(statut := Validee));
    SummaryCountsOnlyValidated(t.commandes, t.produits);
    SummaryCountsOnlyValidated(Valider(t, id).tables.commandes, t.produits);
  }

  lemma CreerKeepsOrderFigures(t: Tables, produitId: int, quantite: int, now: string)
    ensures var before := CalculerStatistiques(t.commandes, t.produits);
      var s := Creer(t, produitId, quantite, now).tables;
      var after := CalculerStatistiques(s.commandes, s.produits);
      && after.totalCommandes == before.totalCommandes
      && after.chiffreAffaires == before.chiffreAffaires
      && after.produitsVendus == before.produitsVendus
  {
    var s := Creer(t, produitId, quantite, now).tables;
    if s.commandes != t.commandes {
      assert s.commandes[..|s.commandes| - 1] == t.commandes;
      assert s.commandes[|s.commandes| - 1].statut == EnAttente;
      assert Valides(s.commandes) == Valides(t.commandes);
    }
  }

  // ---------------------------------------------------------------------
  // Top sellers (`top_produits`): the specification

  /** The product ids of validated orders, each once, in order of first
      appearance: the key order of the `ventes` dictionary. */
  function SoldIds(cs: seq<Order>): (r: seq<int>)
    ensures Ids.Distinct(r)
    ensures forall pid :: pid in r <==> exists c :: c in cs && c.statut == Validee && c.produitId == pid
  {
    if cs == [] then []
    else
      var init := cs[..|cs| - 1];
      var last := cs[|cs| - 1];
      assert cs == init + [last];
      var r := SoldIds(init);
      if last.statut == Validee && last.produitId !in r then r + [last.produitId] else r
  }

  /** Units and revenue of validated orders for one product id. */
  function Sold(cs: seq<Order>, pid: int): int
  {
    if cs == [] then 0
    else Sold(cs[..|cs| - 1], pid)
         + (if cs[|cs| - 1].statut == Validee && cs[|cs| - 1].produitId == pid then cs[|cs| - 1].quantite else 0)
  }

  function Revenue(cs: seq<Order>, pid: int): int
  {
    if cs == [] then 0
    else Revenue(cs[..|cs| - 1], pid)
         + (if cs[|cs| - 1].statut == Validee && cs[|cs| - 1].produitId == pid then cs[|cs| - 1].total else 0)
  }

  /** A product id no validated order names has sold nothing. */
  lemma {:induction false} UnsoldIsZero(cs: seq<Order>, pid: int)
    requires pid !in SoldIds(cs)
    ensures Sold(cs, pid) == 0 && Revenue(cs, pid) == 0
  {
    if cs != [] {
      UnsoldIsZero(cs[..|cs| - 1], pid);
    }
  }

  datatype Entry = Entry(id: int, nom: string, quantiteVendue: int, revenus: int)

  /** The entry for a sold product id, when the catalogue knows it. */
  function EntryFor(cs: seq<Order>, ps: seq<Product>, pid: int): seq<Entry>
  {
    match TrouverProduit(ps, pid)
    case None => []
    case Some(p) => [Entry(pid, p.nom, Sold(cs, pid), Revenue(cs, pid))]
  }

  /** The `resultats` list before sorting: one entry per id of `ids` that
      the catalogue knows, in the order of `ids`. */
  function Join(ids: seq<int>, cs: seq<Order>, ps: seq<Product>): seq<Entry>
  {
    if ids == [] then [] else Join(ids[..|ids| - 1], cs, ps) + EntryFor(cs, ps, ids[|ids| - 1])
  }

  /** What the ranking entries are: exactly the sold ids the catalogue
      knows, with the catalogue's name and the sums for that id. */
  predicate Describes(e: Entry, cs: seq<Order>, ps: seq<Product>)
  {
    && TrouverProduit(ps, e.id).Some?
    && e == Entry(e.id, TrouverProduit(ps, e.id).value.nom, Sold(cs, e.id), Revenue(cs, e.id))
  }

  predicate DistinctIds(es: seq<Entry>)
  {
    forall i, j :: 0 <= i < j < |es| ==> es[i].id != es[j].id
  }

  lemma EntryForMembers(cs: seq<Order>, ps: seq<Product>, pid: int, e: Entry)
    ensures e in EntryFor(cs, ps, pid) <==> e.id == pid && Describes(e, cs, ps)
  {
  }

  lemma {:induction false} JoinMembers(ids: seq<int>, cs: seq<Order>, ps: seq<Product>, e: Entry)
    ensures e in Join(ids, cs, ps) <==> e.id in ids && Describes(e, cs, ps)
  {
    if ids != [] {
      var init := ids[..|ids| - 1];
      var last := ids[|ids| - 1];
      assert ids == init + [last];
      JoinMembers(init, cs, ps, e);
      EntryForMembers(cs, ps, last, e);
      assert e.id in ids <==> e.id in init || e.id == last;
    }
  }

  /** Distinct ids give entries with distinct ids. */
  lemma {:induction false} JoinDistinct(ids: seq<int>, cs: seq<Order>, ps: seq<Product>)
    requires Ids.Distinct(ids)
    ensures DistinctIds(Join(ids, cs, ps))
  {
    if ids != [] {
      var init := ids[..|ids| - 1];
      var last := ids[|ids| - 1];
      assert Ids.Distinct(init) by {
        assert forall i :: 0 <= i < |init| ==> init[i] == ids[i];
      }
      JoinDistinct(init, cs, ps);
      var ji := Join(init, cs, ps);
      var extra := EntryFor(cs, ps, last);
      forall i | 0 <= i < |ji| ensures ji[i].id != last {
        JoinMembers(init, cs, ps, ji[i]);
        var k :| 0 <= k < |init| && init[k] == ji[i].id;
        assert ids[k] == init[k];
      }
      var j := ji + extra;
      assert |extra| <= 1;
      forall a, b | 0 <= a < b < |j| ensures j[a].id != j[b].id {
        if b >= |ji| {
          assert a < |ji|;
          EntryForMembers(cs, ps, last, j[b]);
          assert j[b] in extra;
          assert j[a] == ji[a];
        } else {
          assert j[a] == ji[a] && j[b] == ji[b];
        }
      }
    }
  }

  // Stable sort by `quantite_vendue`, largest first (`list.sort(key=..., reverse=True)`)

  /** Put `x` before the first element that does not sell more than it. */
  function Insert(x: Entry, l: seq<Entry>): (r: seq<Entry>)
    ensures |r| == |l| + 1
  {
    if l == [] || l[0].quantiteVendue <= x.quantiteVendue then [x] + l
    else [l[0]] + Insert(x, l[1..])
  }

  function SortDesc(s: seq<Entry>): (r: seq<Entry>)
    ensures |r| == |s|
  {
    if s == [] then [] else Insert(s[0], SortDesc(s[1..]))
  }

  /** Inserting adds exactly `x`. */
  lemma {:induction false} InsertPermutation(x: Entry, l: seq<Entry>)
    ensures multiset(Insert(x, l)) == multiset([x] + l)
  {
    if l != [] && l[0].quantiteVendue > x.quantiteVendue {
      InsertPermutation(x, l[1..]);
      assert l == [l[0]] + l[1..];
    }
  }

  /** The sort is a permutation. */
  lemma {:induction false} SortDescPermutation(s: seq<Entry>)
    ensures multiset(SortDesc(s)) == multiset(s)
  {
    if s != [] {
      SortDescPermutation(s[1..]);
      InsertPermutation(s[0], SortDesc(s[1..]));
      assert s == [s[0]] + s[1..];
    }
  }

  predicate SortedDesc(s: seq<Entry>)
  {
    forall i, j :: 0 <= i < j < |s| ==> s[i].quantiteVendue >= s[j].quantiteVendue
  }

  lemma {:induction false} InsertSorted(x: Entry, l: seq<Entry>)
    requires SortedDesc(l)
    ensures SortedDesc(Insert(x, l))
  {
    if l != [] && l[0].quantiteVendue > x.quantiteVendue {
      InsertSorted(x, l[1..]);
      var r := Insert(x, l[1..]);
      InsertPermutation(x, l[1..]);
      assert r[0] in multiset([x] + l[1..]);
    }
  }

  lemma {:induction false} SortDescSorted(s: seq<Entry>)
    ensures SortedDesc(SortDesc(s))
  {
    if s != [] {
      SortDescSorted(s[1..]);
      InsertSorted(s[0], SortDesc(s[1..]));
    }
  }

  /** The entries selling exactly `q`, in order. */
  function WithQuantite(s: seq<Entry>, q: int): seq<Entry>
  {
    if s == [] then []
    else (if s[0].quantiteVendue == q then [s[0]] else []) + WithQuantite(s[1..], q)
  }

  lemma WithQuantiteCons(y: Entry, r: seq<Entry>, q: int)
    ensures WithQuantite([y] + r, q) == (if y.quantiteVendue == q then [y] else []) + WithQuantite(r, q)
  {
    assert ([y] + r)[1..] == r;
  }

  lemma {:induction false} WithQuantiteInsert(x: Entry, l: seq<Entry>, q: int)
    ensures WithQuantite(Insert(x, l), q) == WithQuantite([x] + l, q)
  {
    if l != [] && l[0].quantiteVendue > x.quantiteVendue {
      var rest := l[1..];
      assert l == [l[0]] + rest;
      assert Insert(x, l) == [l[0]] + Insert(x, rest);
      WithQuantiteInsert(x, rest, q);
      WithQuantiteCons(l[0], Insert(x, rest), q);
      WithQuantiteCons(x, rest, q);
      WithQuantiteCons(x, l, q);
      WithQuantiteCons(l[0], rest, q);
      var w := WithQuantite(rest, q);
      if x.quantiteVendue == q {
        assert WithQuantite(Insert(x, l), q) == [] + ([x] + w);
        assert WithQuantite([x] + l, q) == [x] + ([] + w);
      } else if l[0].quantiteVendue == q {
        assert WithQuantite(Insert(x, l), q) == [l[0]] + ([] + w);
        assert WithQuantite([x] + l, q) == [] + ([l[0]] + w);
      } else {
        assert WithQuantite(Insert(x, l), q) == [] + ([] + w);
        assert WithQuantite([x] + l, q) == [] + ([] + w);
      }
    } else {
      assert Insert(x, l) == [x] + l;
    }
  }

  /** Stability: for every quantity, the entries selling it come out in the
      order they went in. */
  lemma {:induction false} SortDescStable(s: seq<Entry>, q: int)
    ensures WithQuantite(SortDesc(s), q) == WithQuantite(s, q)
  {
    if s != [] {
      SortDescStable(s[1..], q);
      WithQuantiteInsert(s[0], SortDesc(s[1..]), q);
      assert ([s[0]] + SortDesc(s[1..]))[1..] == SortDesc(s[1..]);
    }
  }

  /** `s[:k]` in Python: a negative `k` counts from the end. */
  function SliceTo<T>(s: seq<T>, k: int): (r: seq<T>)
    ensures k >= 0 ==> |r| == if k < |s| then k else |s|
    ensures k < 0 ==> |r| == if |s| + k > 0 then |s| + k else 0
    ensures r == s[..|r|]
  {
    var n := if k >= 0 then (if k < |s| then k else |s|) else (if |s| + k > 0 then |s| + k else 0);
    s[..n]
  }

  /** The full ranking `top_produits` truncates. */
  function Ranking(cs: seq<Order>, ps: seq<Product>): (r: seq<Entry>)
    ensures SortedDesc(r)
    ensures multiset(r) == multiset(Join(SoldIds(cs), cs, ps))
  {
    var j := Join(SoldIds(cs), cs, ps);
    SortDescSorted(j);
    SortDescPermutation(j);
    SortDesc(j)
  }

  // ---------------------------------------------------------------------
  // Top sellers: the loops of the source

  /** The sold ids of the first `i + 1` orders are those of the first `i`,
      plus the product of order `i` when it is validated and new. */
  lemma SoldIdsPrefix(cs: seq<Order>, i: nat)
    requires i < |cs|
    ensures var c := cs[i];
      SoldIds(cs[..i + 1]) == if c.statut == Validee && c.produitId !in SoldIds(cs[..i])
                               then SoldIds(cs[..i]) + [c.produitId] else SoldIds(cs[..i])
  {
    assert cs[..i + 1][..i] == cs[..i];
  }

  /** Units and revenue of `pid` over the first `i + 1` orders are those over
      the first `i`, plus order `i` when it is a validated order of `pid`. */
  lemma SumsPrefix(cs: seq<Order>, i: nat, pid: int)
    requires i < |cs|
    ensures var c := cs[i];
      var counted := c.statut == Validee && c.produitId == pid;
      && Sold(cs[..i + 1], pid) == Sold(cs[..i], pid) + (if counted then c.quantite else 0)
      && Revenue(cs[..i + 1], pid) == Revenue(cs[..i], pid) + (if counted then c.total else 0)
  {
    assert cs[..i + 1][..i] == cs[..i];
  }

  /** One turn of the first loop: order `cs[i]` is added to the tallies of `cs[..i]`. */
  method Count(cs: seq<Order>, i: nat, ordre: seq<int>, ventes: map<int, int>, revenus: map<int, int>)
    returns (ordre': seq<int>, ventes': map<int, int>, revenus': map<int, int>)
    requires i < |cs|
    requires ordre == SoldIds(cs[..i])
    requires forall pid :: pid in ventes <==> pid in ordre
    requires forall pid :: pid in revenus <==> pid in ordre
    requires forall pid :: pid in ventes ==> ventes[pid] == Sold(cs[..i], pid)
    requires forall pid :: pid in revenus ==> revenus[pid] == Revenue(cs[..i], pid)
    ensures ordre' == SoldIds(cs[..i + 1])
    ensures forall pid :: pid in ventes' <==> pid in ordre'
    ensures forall pid :: pid in revenus' <==> pid in ordre'
    ensures forall pid :: pid in ventes' ==> ventes'[pid] == Sold(cs[..i + 1], pid)
    ensures forall pid :: pid in revenus' ==> revenus'[pid] == Revenue(cs[..i + 1], pid)
  {
    var c := cs[i];
    SoldIdsPrefix(cs, i);
    ordre', ventes', revenus' := ordre, ventes, revenus;
    if c.statut == Validee {
      if c.produitId !in ordre' {
        UnsoldIsZero(cs[..i], c.produitId);
        ordre' := ordre' + [c.produitId];
      }
      var v := if c.produitId in ventes' then ventes'[c.produitId] else 0;
      var m := if c.produitId in revenus' then revenus'[c.produitId] else 0;
      ventes' := ventes'[c.produitId := v + c.quantite];
      revenus' := revenus'[c.produitId := m + c.total];
    }
    assert ordre' == SoldIds(cs[..i + 1]);
    assert forall pid :: pid in ventes' <==> pid in ordre';
    assert forall pid :: pid in revenus' <==> pid in ordre';
    forall pid | pid in ventes' ensures ventes'[pid] == Sold(cs[..i + 1], pid) {
      SumsPrefix(cs, i, pid);
    }
    forall pid | pid in revenus' ensures revenus'[pid] == Revenue(cs[..i + 1], pid) {
      SumsPrefix(cs, i, pid);
    }
  }

  /** The first loop of `top_produits`: tally units and revenue per product
      id over validated orders. The dictionaries `ventes` and `revenus` share
      their key order, returned as `ordre`. */
  method Tally(cs: seq<Order>) returns (ordre: seq<int>, ventes: map<int, int>, revenus: map<int, int>)
    ensures ordre == SoldIds(cs)
    ensures forall pid :: pid in ventes <==> pid in ordre
    ensures forall pid :: pid in revenus <==> pid in ordre
    ensures forall pid :: pid in ventes ==> ventes[pid] == Sold(cs, pid)
    ensures forall pid :: pid in revenus ==> revenus[pid] == Revenue(cs, pid)
  {
    ventes, revenus, ordre := map[], map[], [];
    var i := 0;
    while i < |cs|
      invariant 0 <= i <= |cs|
      invariant ordre == SoldIds(cs[..i])
      invariant forall pid :: pid in ventes <==> pid in ordre
      invariant forall pid :: pid in revenus <==> pid in ordre
      invariant forall pid :: pid in ventes ==> ventes[pid] == Sold(cs[..i], pid)
      invariant forall pid :: pid in revenus ==> revenus[pid] == Revenue(cs[..i], pid)
    {
      ordre, ventes, revenus := Count(cs, i, ordre, ventes, revenus);
      i := i + 1;
    }
    assert cs[..i] == cs;
  }

  /** The second loop of `top_produits`: one entry per tallied id whose
      product the catalogue still has, in tally order. */
  method Collect(ordre: seq<int>, ventes: map<int, int>, revenus: map<int, int>,
                 cs: seq<Order>, ps: seq<Product>) returns (resultats: seq<Entry>)
    requires forall pid :: pid in ordre ==> pid in ventes && ventes[pid] == Sold(cs, pid)
    requires forall pid :: pid in ordre ==> pid in revenus && revenus[pid] == Revenue(cs, pid)
    ensures resultats == Join(ordre, cs, ps)
  {
    resultats := [];
    var j := 0;
    while j < |ordre|
      invariant 0 <= j <= |ordre|
      invariant resultats == Join(ordre[..j], cs, ps)
    {
      var pid := ordre[j];
      assert ordre[..j + 1] == ordre[..j] + [pid];
      assert ordre[..j + 1][..j] == ordre[..j];
      var produit := TrouverProduit(ps, pid);
      if produit.Some? {
        resultats := resultats + [Entry(pid, produit.value.nom, ventes[pid], revenus[pid])];
      }
      j := j + 1;
    }
    assert ordre[..j] == ordre;
  }

  /** `top_produits(limite)` over the loaded orders and products. */
  method TopProduits(cs: seq<Order>, ps: seq<Product>, limite: int) returns (r: seq<Entry>)
    ensures r == SliceTo(Ranking(cs, ps), limite)
  {
    var ordre, ventes, revenus := Tally(cs);
    var resultats := Collect(ordre, ventes, revenus, cs, ps);
    resultats := SortDesc(resultats);
    r := SliceTo(resultats, limite);
  }

  // ---------------------------------------------------------------------
  // Top sellers: what the ranking promises

  lemma InsertMembers(x: Entry, l: seq<Entry>)
    ensures forall e :: e in Insert(x, l) <==> e == x || e in l
  {
    InsertPermutation(x, l);
    assert forall e :: e in Insert(x, l) <==> e in multiset(Insert(x, l));
  }

  /** An entry put in front keeps the ids distinct exactly when its id is new. */
  lemma DistinctCons(x: Entry, l: seq<Entry>)
    ensures DistinctIds([x] + l) <==> DistinctIds(l) && forall e :: e in l ==> e.id != x.id
  {
    var full := [x] + l;
    assert forall i :: 0 <= i < |l| ==> full[i + 1] == l[i];
    if DistinctIds(full) {
      forall e | e in l ensures e.id != x.id {
        var k :| 0 <= k < |l| && l[k] == e;
        assert full[0] == x && full[k + 1] == e;
      }
      forall a, b | 0 <= a < b < |l| ensures l[a].id != l[b].id {
        assert full[a + 1] == l[a] && full[b + 1] == l[b];
      }
    }
    if DistinctIds(l) && forall e :: e in l ==> e.id != x.id {
      forall a, b | 0 <= a < b < |full| ensures full[a].id != full[b].id {
        assert full[b] == l[b - 1] && l[b - 1] in l;
        if a > 0 {
          assert full[a] == l[a - 1];
        }
      }
    }
  }

  lemma {:induction false} InsertDistinctIds(x: Entry, l: seq<Entry>)
    requires DistinctIds(l)
    requires forall e :: e in l ==> e.id != x.id
    ensures DistinctIds(Insert(x, l))
  {
    if l != [] && l[0].quantiteVendue > x.quantiteVendue {
      var rest := l[1..];
      assert l == [l[0]] + rest;
      DistinctCons(l[0], rest);
      assert forall e :: e in rest ==> e in l;
      InsertDistinctIds(x, rest);
      InsertMembers(x, rest);
      assert l[0] in l;
      DistinctCons(l[0], Insert(x, rest));
    } else {
      DistinctCons(x, l);
    }
  }

  lemma {:induction false} SortDescDistinctIds(s: seq<Entry>)
    requires DistinctIds(s)
    ensures DistinctIds(SortDesc(s))
  {
    if s != [] {
      var rest := s[1..];
      assert s == [s[0]] + rest;
      DistinctCons(s[0], rest);
      SortDescDistinctIds(rest);
      forall e | e in SortDesc(rest) ensures e.id != s[0].id {
        SortDescPermutation(rest);
        ElemsOfPermutation(SortDesc(rest), rest, e);
      }
      InsertDistinctIds(s[0], SortDesc(rest));
    }
  }

  lemma ElemsOfPermutation(a: seq<Entry>, b: seq<Entry>, e: Entry)
    requires multiset(a) == multiset(b)
    ensures e in a <==> e in b
  {
    assert e in a <==> e in multiset(a);
    assert e in b <==> e in multiset(b);
  }

  /** The full ranking is sorted, has no repeated id, and holds exactly the
      sold products the catalogue still knows, each with the units and
      revenue of its validated orders. */
  lemma RankingContents(cs: seq<Order>, ps: seq<Product>)
    ensures SortedDesc(Ranking(cs, ps))
    ensures multiset(Ranking(cs, ps)) == multiset(Join(SoldIds(cs), cs, ps))
    ensures DistinctIds(Ranking(cs, ps))
    ensures forall e :: e in Ranking(cs, ps) <==> e.id in SoldIds(cs) && Describes(e, cs, ps)
  {
    var joined := Join(SoldIds(cs), cs, ps);
    JoinDistinct(SoldIds(cs), cs, ps);
    SortDescPermutation(joined);
    SortDescSorted(joined);
    SortDescDistinctIds(joined);
    forall e ensures e in Ranking(cs, ps) <==> e.id in SoldIds(cs) && Describes(e, cs, ps) {
      JoinMembers(SoldIds(cs), cs, ps, e);
      SortDescPermutation(joined);
      ElemsOfPermutation(Ranking(cs, ps), joined, e);
    }
  }

  /** `top_produits` returns at most `limite` entries, a prefix of the
      ranking: largest sellers first, no id twice, each entry a sold product
      the catalogue still knows with the units and revenue of its validated
      orders. */
  lemma TopProperties(cs: seq<Order>, ps: seq<Product>, limite: int)
    ensures var r := SliceTo(Ranking(cs, ps), limite);
      && (limite >= 0 ==> |r| <= limite)
      && SortedDesc(r)
      && DistinctIds(r)
      && (forall e :: e in r ==> e.id in SoldIds(cs) && Describes(e, cs, ps))
  {
    RankingContents(cs, ps);
    var ranking := Ranking(cs, ps);
    var r := SliceTo(ranking, limite);
    PrefixKeeps(ranking, |r|);
  }

  /** A prefix of a sorted list of distinct ids is one too, and holds only
      elements of the list. */
  lemma PrefixKeeps(s: seq<Entry>, n: nat)
    requires n <= |s| && SortedDesc(s) && DistinctIds(s)
    ensures SortedDesc(s[..n]) && DistinctIds(s[..n])
    ensures forall e :: e in s[..n] ==> e in s
  {
    assert forall i :: 0 <= i < n ==> s[..n][i] == s[i];
  }

  /** Ties keep the order in which `resultats` was built, i.e. the order of
      first appearance of product ids among validated orders. */
  lemma RankingTies(cs: seq<Order>, ps: seq<Product>, q: int)
    ensures WithQuantite(Ranking(cs, ps), q) == WithQuantite(Join(SoldIds(cs), cs, ps), q)
  {
    SortDescStable(Join(SoldIds(cs), cs, ps), q);
  }
}
