/** The order-schema migration of migrate_commandes.py: an orders table in
    the old one-product-per-order format is rewritten as orders plus order
    lines, one line per old order. The files are abstract state: whether the
    orders file exists and what it holds, the order-lines file and the
    backup copy. Reading a decimal amount is a parameter `toCents` (float
    parsing and rounding are not modelled); reading an integer cell is a
    parameter `toInt` of the conversion, which the migration itself fixes to
    `int()` (`Text.ParseInt`); the clock reading for row `k` is `now(k)`. */
module Migration {
  import opened Common
  import opened Text

  /** One row of the old table as `csv.DictReader` gives it: column name to cell. */
  type Row = map<string, string>

  datatype NewOrder = NewOrder(id: int, username: string, date: string, statut: string, total: int)
  datatype Line = Line(id: int, commandeId: int, produitId: int, quantite: int, prixUnitaire: int, total: int)

  /** The orders file: either as read (its header, None for an empty file,
      and its rows), or as the migration writes it. */
  datatype OrdersFile =
    | Ancien(header: Option<seq<string>>, rows: seq<Row>)
    | Nouveau(orders: seq<NewOrder>)

  const NewHeader: seq<string> := ["id", "username", "date", "statut", "total"]

  function Header(f: OrdersFile): Option<seq<string>>
  {
    match f
    case Ancien(h, _) => h
    case Nouveau(_) => Some(NewHeader)
  }

  /** How a run ends. `ErreurType` is the `TypeError` of `"produit_id" in None`
      on an empty file; `ErreurConversion(k)` is the exception raised while
      converting old row `k` (1-based). */
  datatype Bilan =
    | Introuvable
    | DejaMigre
    | NonReconnu
    | ErreurType
    | ErreurConversion(ligne: nat)
    | Migre(n: nat)

  /** The checks before any write: the file must exist, a header equal to
      the new one means it is already migrated, and a header without
      "produit_id" is not recognised. None means: go ahead. */
  function Decide(f: Option<OrdersFile>): (r: Option<Bilan>)
    ensures r.None? <==> f.Some? && Header(f.value).Some? && Header(f.value).value != NewHeader
                         && "produit_id" in Header(f.value).value
    ensures f.Some? && Header(f.value) == Some(NewHeader) ==> r == Some(DejaMigre)
    ensures f.Some? && Header(f.value).Some? && "produit_id" !in Header(f.value).value ==> r.Some?
  {
    match f
    case None => Some(Introuvable)
    case Some(file) =>
      match Header(file)
      case Some(h) =>
        if h == NewHeader then Some(DejaMigre)
        else if "produit_id" !in h then Some(NonReconnu)
        else None
      case None => Some(ErreurType)
  }

  /** `row.get(key, default)` for a text column. */
  function Get(row: Row, key: string, default: string): string
  {
    if key in row then row[key] else default
  }

  /** `int(row.get(key, default))`: the default is already an integer. */
  function GetInt(row: Row, key: string, default: int, toInt: string -> Option<int>): Option<int>
  {
    if key in row then toInt(row[key]) else Some(default)
  }

  /** `float(row.get(key, 0))` in cents. */
  function GetCents(row: Row, key: string, toCents: string -> Option<int>): Option<int>
  {
    if key in row then toCents(row[key]) else Some(0)
  }

  /** Old row number `k` (1-based) as its new order and its single line, or
      None when one of its numbers does not convert. */
  function ConvertRow(k: int, row: Row, toCents: string -> Option<int>, toInt: string -> Option<int>, now: int -> string): (r: Option<(NewOrder, Line)>)
    ensures r.Some? <==> CellsConvert(row, toCents, toInt)
  {
    var total := GetCents(row, "total", toCents);
    var produitId := GetInt(row, "produit_id", 0, toInt);
    var quantite := GetInt(row, "quantite", 1, toInt);
    var prix := GetCents(row, "prix_unitaire", toCents);
    if total.None? || produitId.None? || quantite.None? || prix.None? then None
    else
      var date := if "date" in row then row["date"] else now(k);
      Some((NewOrder(k, Get(row, "username", ""), date, Get(row, "statut", "en_attente"), total.value),
            Line(k, k, produitId.value, quantite.value, prix.value, total.value)))
  }

  /** One turn of the loop: row number `k` is converted and appended, unless
      an earlier row has already failed. */
  function Step(acc: Result<(seq<NewOrder>, seq<Line>), nat>, k: nat, row: Row,
                toCents: string -> Option<int>, toInt: string -> Option<int>, now: int -> string)
    : Result<(seq<NewOrder>, seq<Line>), nat>
  {
    match acc
    case Err(e) => Err(e)
    case Ok(a) =>
      match ConvertRow(k, row, toCents, toInt, now)
      case None => Err(k)
      case Some(pair) => Ok((a.0 + [pair.0], a.1 + [pair.1]))
  }

  /** The whole loop: the converted rows, or the number of the first row
      that does not convert. */
  function Convertir(rows: seq<Row>, toCents: string -> Option<int>, toInt: string -> Option<int>, now: int -> string)
    : (r: Result<(seq<NewOrder>, seq<Line>), nat>)
    ensures r.Err? ==> 1 <= r.error <= |rows|
  {
    if rows == [] then Ok(([], []))
    else Step(Convertir(rows[..|rows| - 1], toCents, toInt, now), |rows|, rows[|rows| - 1], toCents, toInt, now)
  }

  /** Once a row fails, later rows do not matter. */
  lemma {:induction false} ConvertirStopsAtError(rows: seq<Row>, more: seq<Row>, toCents: string -> Option<int>, toInt: string -> Option<int>, now: int -> string)
    requires Convertir(rows, toCents, toInt, now).Err?
    ensures Convertir(rows + more, toCents, toInt, now) == Convertir(rows, toCents, toInt, now)
  {
    if more != [] {
      var init := more[..|more| - 1];
      ConvertirStopsAtError(rows, init, toCents, toInt, now);
      assert (rows + more)[..|rows + more| - 1] == rows + init;
      assert Convertir(rows + init, toCents, toInt, now).Err?;
    } else {
      assert rows + more == rows;
    }
  }

  /** Order `o` and line `l` are what old row number `k` (1-based) becomes:
      both carry id `k`, the line belongs to order `k` with the same total,
      present cells are read as they are and missing ones take their
      defaults. */
  predicate Converted(k: int, row: Row, o: NewOrder, l: Line, toCents: string -> Option<int>, toInt: string -> Option<int>, now: int -> string)
  {
    && o.id == k && l.id == k && l.commandeId == k
    && o.total == l.total
    && o.statut == (if "statut" in row then row["statut"] else "en_attente")
    && o.username == (if "username" in row then row["username"] else "")
    && o.date == (if "date" in row then row["date"] else now(k))
    && ("total" in row ==> toCents(row["total"]) == Some(o.total))
    && ("total" !in row ==> o.total == 0)
    && ("prix_unitaire" in row ==> toCents(row["prix_unitaire"]) == Some(l.prixUnitaire))
    && ("prix_unitaire" !in row ==> l.prixUnitaire == 0)
    && ("produit_id" in row ==> toInt(row["produit_id"]) == Some(l.produitId))
    && ("produit_id" !in row ==> l.produitId == 0)
    && ("quantite" in row ==> toInt(row["quantite"]) == Some(l.quantite))
    && ("quantite" !in row ==> l.quantite == 1)
  }

  /** Every numeric cell the row has converts; missing ones take defaults. */
  predicate CellsConvert(row: Row, toCents: string -> Option<int>, toInt: string -> Option<int>)
  {
    && ("total" in row ==> toCents(row["total"]).Some?)
    && ("prix_unitaire" in row ==> toCents(row["prix_unitaire"]).Some?)
    && ("produit_id" in row ==> toInt(row["produit_id"]).Some?)
    && ("quantite" in row ==> toInt(row["quantite"]).Some?)
  }

  lemma ConvertRowShape(k: int, row: Row, toCents: string -> Option<int>, toInt: string -> Option<int>, now: int -> string)
    requires ConvertRow(k, row, toCents, toInt, now).Some?
    ensures var pair := ConvertRow(k, row, toCents, toInt, now).value;
      Converted(k, row, pair.0, pair.1, toCents, toInt, now)
  {
  }

  /** n rows give n orders and n lines. */
  lemma {:induction false} ConvertirLength(rows: seq<Row>, toCents: string -> Option<int>, toInt: string -> Option<int>, now: int -> string)
    requires Convertir(rows, toCents, toInt, now).Ok?
    ensures |Convertir(rows, toCents, toInt, now).value.0| == |rows|
    ensures |Convertir(rows, toCents, toInt, now).value.1| == |rows|
  {
    if rows != [] {
      ConvertirLength(rows[..|rows| - 1], toCents, toInt, now);
    }
  }

  /** Order and line k are what row k becomes. */
  lemma {:induction false} ConvertirAt(rows: seq<Row>, k: nat, toCents: string -> Option<int>, toInt: string -> Option<int>, now: int -> string)
    requires Convertir(rows, toCents, toInt, now).Ok? && k < |rows|
    ensures var r := Convertir(rows, toCents, toInt, now).value;
      |r.0| == |rows| && |r.1| == |rows| && Converted(k + 1, rows[k], r.0[k], r.1[k], toCents, toInt, now)
  {
    var init := rows[..|rows| - 1];
    assert Convertir(init, toCents, toInt, now).Ok?;
    ConvertirLength(init, toCents, toInt, now);
    ConvertirLength(rows, toCents, toInt, now);
    var acc := Convertir(init, toCents, toInt, now).value;
    var pair := ConvertRow(|rows|, rows[|rows| - 1], toCents, toInt, now).value;
    var r := Convertir(rows, toCents, toInt, now).value;
    assert r == (acc.0 + [pair.0], acc.1 + [pair.1]);
    if k < |init| {
      ConvertirAt(init, k, toCents, toInt, now);
      assert rows[k] == init[k] && r.0[k] == acc.0[k] && r.1[k] == acc.1[k];
    } else {
      ConvertRowShape(|rows|, rows[|rows| - 1], toCents, toInt, now);
      assert r.0[k] == pair.0 && r.1[k] == pair.1;
    }
  }

  /** n rows give n orders and n lines, and order and line k are what row k becomes. */
  lemma ConvertirShape(rows: seq<Row>, toCents: string -> Option<int>, toInt: string -> Option<int>, now: int -> string)
    requires Convertir(rows, toCents, toInt, now).Ok?
    ensures var r := Convertir(rows, toCents, toInt, now).value;
      && |r.0| == |rows| && |r.1| == |rows|
      && forall k :: 0 <= k < |rows| ==> Converted(k + 1, rows[k], r.0[k], r.1[k], toCents, toInt, now)
  {
    ConvertirLength(rows, toCents, toInt, now);
    forall k | 0 <= k < |rows|
      ensures Converted(k + 1, rows[k], Convertir(rows, toCents, toInt, now).value.0[k],
                        Convertir(rows, toCents, toInt, now).value.1[k], toCents, toInt, now)
    {
      ConvertirAt(rows, k, toCents, toInt, now);
    }
  }

  /** Rows 1 to n of `rows` all convert. */
  predicate AllConvert(rows: seq<Row>, n: int, toCents: string -> Option<int>, toInt: string -> Option<int>, now: int -> string)
    requires n <= |rows|
  {
    forall j :: 0 <= j < n ==> ConvertRow(j + 1, rows[j], toCents, toInt, now).Some?
  }

  lemma {:induction false} ConvertirError(rows: seq<Row>, toCents: string -> Option<int>, toInt: string -> Option<int>, now: int -> string)
    ensures Convertir(rows, toCents, toInt, now).Ok? <==> AllConvert(rows, |rows|, toCents, toInt, now)
    ensures Convertir(rows, toCents, toInt, now).Err? ==>
              var k := Convertir(rows, toCents, toInt, now).error;
              && 1 <= k <= |rows| && ConvertRow(k, rows[k - 1], toCents, toInt, now).None?
              && AllConvert(rows, k - 1, toCents, toInt, now)
  {
    if rows != [] {
      var init := rows[..|rows| - 1];
      ConvertirError(init, toCents, toInt, now);
      assert forall j :: 0 <= j < |init| ==> rows[j] == init[j];
      var last := ConvertRow(|rows|, rows[|rows| - 1], toCents, toInt, now);
      if Convertir(init, toCents, toInt, now).Err? {
        var k := Convertir(init, toCents, toInt, now).error;
        assert Convertir(rows, toCents, toInt, now).error == k;
        assert !AllConvert(rows, |rows|, toCents, toInt, now) by {
          assert ConvertRow(k, rows[k - 1], toCents, toInt, now).None?;
        }
      } else if last.None? {
        assert Convertir(rows, toCents, toInt, now) == Err(|rows|);
        assert AllConvert(rows, |rows| - 1, toCents, toInt, now);
      } else {
        assert Convertir(rows, toCents, toInt, now).Ok?;
        assert AllConvert(rows, |rows|, toCents, toInt, now);
      }
    }
  }

  /** Converting the first `n` rows is one more step after the first `n - 1`. */
  lemma ConvertirPrefix(rows: seq<Row>, n: nat, toCents: string -> Option<int>, toInt: string -> Option<int>, now: int -> string)
    requires 1 <= n <= |rows|
    ensures Convertir(rows[..n], toCents, toInt, now)
         == Step(Convertir(rows[..n - 1], toCents, toInt, now), n, rows[n - 1], toCents, toInt, now)
  {
    assert rows[..n][..n - 1] == rows[..n - 1];
  }

  /** The body of the loop for old row number `k`: its cells read one by
      one, with line id `ligneId` (which the loop keeps equal to `k`). */
  method LireLigne(k: nat, ligneId: int, ancienne: Row, toCents: string -> Option<int>,
                   toInt: string -> Option<int>, now: int -> string)
    returns (o: Option<(NewOrder, Line)>)
    requires ligneId == k
    ensures o.None? <==> !CellsConvert(ancienne, toCents, toInt)
    ensures o.Some? ==> Converted(k, ancienne, o.value.0, o.value.1, toCents, toInt, now)
    ensures o == ConvertRow(k, ancienne, toCents, toInt, now)
  {
    var total := GetCents(ancienne, "total", toCents);
    var produitId := GetInt(ancienne, "produit_id", 0, toInt);
    var quantite := GetInt(ancienne, "quantite", 1, toInt);
    var prix := GetCents(ancienne, "prix_unitaire", toCents);
    if total.None? || produitId.None? || quantite.None? || prix.None? {
      return None;
    }
    var date := if "date" in ancienne then ancienne["date"] else now(k);
    var commande := NewOrder(k, Get(ancienne, "username", ""), date, Get(ancienne, "statut", "en_attente"), total.value);
    var ligne := Line(ligneId, k, produitId.value, quantite.value, prix.value, total.value);
    o := Some((commande, ligne));
  }

  /** The loop of `migrer_vers_nouvelle_structure` over the old rows. */
  method ConvertirLignes(rows: seq<Row>, toCents: string -> Option<int>, toInt: string -> Option<int>, now: int -> string)
    returns (r: Result<(seq<NewOrder>, seq<Line>), nat>)
    ensures r == Convertir(rows, toCents, toInt, now)
  {
    var commandes: seq<NewOrder> := [];
    var lignes: seq<Line> := [];
    var ligneId := 1;
    var idx := 1;
    while idx <= |rows|
      invariant 1 <= idx <= |rows| + 1
      invariant ligneId == idx
      invariant Convertir(rows[..idx - 1], toCents, toInt, now) == Ok((commandes, lignes))
    {
      var ancienne := rows[idx - 1];
      ConvertirPrefix(rows, idx, toCents, toInt, now);
      var o := LireLigne(idx, ligneId, ancienne, toCents, toInt, now);
      if o.None? {
        ConvertirStopsAtError(rows[..idx], rows[idx..], toCents, toInt, now);
        assert rows[..idx] + rows[idx..] == rows;
        return Err(idx);
      }
      commandes := commandes + [o.value.0];
      lignes := lignes + [o.value.1];
      ligneId := ligneId + 1;
      idx := idx + 1;
    }
    assert rows[..idx - 1] == rows;
    r := Ok((commandes, lignes));
  }

  /** The three files the migration touches; None means the file does not exist. */
  class Fichiers {
    var commandes: Option<OrdersFile>
    var lignes: Option<seq<Line>>
    var sauvegarde: Option<OrdersFile>

    constructor (c: Option<OrdersFile>, l: Option<seq<Line>>, s: Option<OrdersFile>)
      ensures commandes == c && lignes == l && sauvegarde == s
    {
      commandes, lignes, sauvegarde := c, l, s;
    }

    /** `migrer_vers_nouvelle_structure()`. When a check stops the run,
        nothing is written; otherwise the backup is taken first, and the
        orders and lines files are rewritten only when every row converts. */
    method Migrer(toCents: string -> Option<int>, now: int -> string) returns (b: Bilan)
      modifies this
      ensures Decide(old(commandes)).Some? ==>
        && b == Decide(old(commandes)).value
        && commandes == old(commandes) && lignes == old(lignes) && sauvegarde == old(sauvegarde)
      ensures Decide(old(commandes)).None? ==>
        && sauvegarde == old(commandes)
        && match Convertir(old(commandes).value.rows, toCents, ParseInt, now)
           case Err(k) => b == ErreurConversion(k) && commandes == old(commandes) && lignes == old(lignes)
           case Ok(r) => b == Migre(|r.0|) && commandes == Some(Nouveau(r.0)) && lignes == Some(r.1)
      ensures b.Migre? ==> Decide(commandes) == Some(DejaMigre)
    {
      var d := Decide(commandes);
      if d.Some? {
        return d.value;
      }
      sauvegarde := commandes;
      var r := ConvertirLignes(commandes.value.rows, toCents, ParseInt, now);
      if r.Err? {
        return ErreurConversion(r.error);
      }
      commandes := Some(Nouveau(r.value.0));
      lignes := Some(r.value.1);
      b := Migre(|r.value.0|);
    }
  }
}
