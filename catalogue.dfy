/**
 * The static metric catalogue: six categories of metric ids
 * (`obtener_categorias_graficos`) and the display name of each id
 * (`nombres_descriptivos`, looked up with the id as fallback).
 */
module Catalogue {
  import opened Dicts

  /** Category name and its metric ids, in the order the dashboard lists them. */
  const Categories: seq<(string, seq<string>)> := [
    ("Mercado", ["market-price", "market-cap", "trade-volume"]),
    ("Detalles de Bloques", [
      "blocks-size", "avg-block-size", "n-transactions-per-block",
      "n-payments-per-block", "n-transactions-total",
      "median-confirmation-time", "avg-confirmation-time"]),
    ("Información de Minería", [
      "hash-rate", "difficulty", "miners-revenue",
      "transaction-fees", "transaction-fees-usd",
      "cost-per-transaction", "cost-per-transaction-percent"]),
    ("Actividad de Red", [
      "n-unique-addresses", "n-transactions", "n-payments",
      "transactions-per-second", "output-volume", "mempool-count",
      "mempool-growth", "mempool-size", "mempool-state-by-fee-level",
      "utxo-count", "n-transactions-excluding-popular",
      "estimated-transaction-volume", "estimated-transaction-volume-usd"]),
    ("Señales de Mercado", ["mvrv", "nvt", "nvts"]),
    ("Suministro", ["total-bitcoins"])
  ]

  const DisplayNames: map<string, string> := map[
    "market-price" := "Precio de Mercado (USD)",
    "market-cap" := "Capitalización de Mercado",
    "trade-volume" := "Volumen de Comercio USD",
    "blocks-size" := "Tamaño de Blockchain (MB)",
    "avg-block-size" := "Tamaño Promedio de Bloque (MB)",
    "n-transactions-per-block" := "Transacciones por Bloque",
    "n-payments-per-block" := "Pagos por Bloque",
    "n-transactions-total" := "Número Total de Transacciones",
    "median-confirmation-time" := "Tiempo Mediano de Confirmación",
    "avg-confirmation-time" := "Tiempo Promedio de Confirmación",
    "hash-rate" := "Tasa de Hash (TH/s)",
    "difficulty" := "Dificultad de Minería",
    "miners-revenue" := "Ingresos de Mineros (USD)",
    "transaction-fees" := "Comisiones Totales (BTC)",
    "transaction-fees-usd" := "Comisiones Totales (USD)",
    "cost-per-transaction" := "Costo por Transacción",
    "cost-per-transaction-percent" := "Costo por Transacción (%)",
    "n-unique-addresses" := "Direcciones Únicas Usadas",
    "n-transactions" := "Transacciones Confirmadas por Día",
    "n-payments" := "Pagos Confirmados por Día",
    "transactions-per-second" := "Transacciones por Segundo",
    "output-volume" := "Valor de Salida por Día",
    "mempool-count" := "Conteo de Transacciones Mempool",
    "mempool-growth" := "Crecimiento del Mempool",
    "mempool-size" := "Tamaño del Mempool (Bytes)",
    "mempool-state-by-fee-level" := "Estado del Mempool por Nivel de Comisión",
    "utxo-count" := "Salidas No Gastadas (UTXO)",
    "n-transactions-excluding-popular" := "Transacciones (Excluyendo Populares)",
    "estimated-transaction-volume" := "Valor de Transacción Estimado (BTC)",
    "estimated-transaction-volume-usd" := "Valor de Transacción Estimado (USD)",
    "mvrv" := "MVRV - Valor de Mercado a Valor Realizado",
    "nvt" := "NVT - Valor de Red a Transacciones",
    "nvts" := "Señal NVT",
    "total-bitcoins" := "Bitcoins en Circulación"
  ]

  /** Every metric id of the catalogue, category after category. */
  function AllIds(cats: seq<(string, seq<string>)>): seq<string> {
    if cats == [] then [] else cats[0].1 + AllIds(cats[1..])
  }

  /** The dashboard's metric count: the sum of the category lengths. */
  function TotalMetrics(cats: seq<(string, seq<string>)>): nat {
    if cats == [] then 0 else |cats[0].1| + TotalMetrics(cats[1..])
  }

  /**
   * The display name of a metric: its descriptive name, or the id itself
   * when it has none, so what is shown is always one of the descriptive
   * names or the id.
   */
  function DisplayName(id: string): (name: string)
    ensures name in DisplayNames.Values || name == id
  {
    if id in DisplayNames then DisplayNames[id] else id
  }

  predicate EachNoDup(cats: seq<(string, seq<string>)>) {
    forall c :: 0 <= c < |cats| ==> NoDup(cats[c].1)
  }

  predicate PairwiseDisjoint(cats: seq<(string, seq<string>)>) {
    forall a, b :: 0 <= a < b < |cats| ==> Disjoint(cats[a].1, cats[b].1)
  }

  /** The category names, in catalogue order: the keys of the dict. */
  function CategoryNames(cats: seq<(string, seq<string>)>): (names: seq<string>)
    ensures |names| == |cats| && forall i :: 0 <= i < |cats| ==> names[i] == cats[i].0
  {
    seq(|cats|, i requires 0 <= i < |cats| => cats[i].0)
  }

  /** No category name is used twice. */
  lemma CategoryNamesNoDup()
    ensures NoDup(CategoryNames(Categories))
  {
    assert CategoryNames(Categories) == [
      "Mercado", "Detalles de Bloques", "Información de Minería",
      "Actividad de Red", "Señales de Mercado", "Suministro"];
  }

  /**
   * The catalogue: six categories, under distinct names (the keys of the
   * dict), with 34 metric ids in all, each listed once and every one with
   * a descriptive name.
   */
  function ChartCategories(): (cats: seq<(string, seq<string>)>)
    ensures |cats| == 6 && TotalMetrics(cats) == 34
    ensures EachNoDup(cats) && PairwiseDisjoint(cats)
    ensures NoDup(AllIds(cats))
    ensures forall id :: id in AllIds(cats) ==> id in DisplayNames
    ensures NoDup(CategoryNames(cats))
  {
    Total();
    CategoryNamesNoDup();
    CategoriesNoDup();
    CategoriesDisjoint();
    PartitionIff(Categories);
    forall id | id in AllIds(Categories) ensures id in DisplayNames {
      DisplayNameOfCatalogued(id);
    }
    Categories
  }

  lemma {:induction false} InAllIds(cats: seq<(string, seq<string>)>, x: string)
    ensures x in AllIds(cats) <==> exists c :: 0 <= c < |cats| && x in cats[c].1
  {
    if cats != [] {
      InAllIds(cats[1..], x);
      if c :| 0 <= c < |cats| && x in cats[c].1 {
        if c > 0 { assert x in cats[1..][c - 1].1; }
      }
      if c :| 0 <= c < |cats| - 1 && x in cats[1..][c].1 {
        assert x in cats[c + 1].1;
      }
    }
  }

  /**
   * No id is listed twice across the whole catalogue exactly when no
   * category repeats an id and no two categories share one: the
   * categories partition the ids.
   */
  lemma {:induction false} PartitionIff(cats: seq<(string, seq<string>)>)
    ensures NoDup(AllIds(cats)) <==> EachNoDup(cats) && PairwiseDisjoint(cats)
  {
    if cats != [] {
      var head := cats[0].1;
      var tail := cats[1..];
      PartitionIff(tail);
      NoDupAppend(head, AllIds(tail));
      assert Disjoint(head, AllIds(tail)) <==>
             forall b :: 1 <= b < |cats| ==> Disjoint(head, cats[b].1) by {
        forall x { InAllIds(tail, x); }
        if Disjoint(head, AllIds(tail)) {
          forall b, x | 1 <= b < |cats| && x in head ensures x !in cats[b].1 {
            assert cats[b] == tail[b - 1];
          }
        }
        if forall b :: 1 <= b < |cats| ==> Disjoint(head, cats[b].1) {
          forall x | x in head ensures x !in AllIds(tail) {
            forall c | 0 <= c < |tail| ensures x !in tail[c].1 {
              assert tail[c] == cats[c + 1];
            }
          }
        }
      }
      assert EachNoDup(cats) <==> NoDup(head) && EachNoDup(tail) by {
        if NoDup(head) && EachNoDup(tail) {
          forall c | 0 <= c < |cats| ensures NoDup(cats[c].1) {
            if c > 0 { assert cats[c] == tail[c - 1]; }
          }
        }
      }
      assert PairwiseDisjoint(cats) <==>
             (forall b :: 1 <= b < |cats| ==> Disjoint(head, cats[b].1)) && PairwiseDisjoint(tail) by {
        if (forall b :: 1 <= b < |cats| ==> Disjoint(head, cats[b].1)) && PairwiseDisjoint(tail) {
          forall a, b | 0 <= a < b < |cats| ensures Disjoint(cats[a].1, cats[b].1) {
            if a > 0 { assert Disjoint(tail[a - 1].1, tail[b - 1].1); }
          }
        }
        if PairwiseDisjoint(cats) {
          forall a, b | 0 <= a < b < |tail| ensures Disjoint(tail[a].1, tail[b].1) {
            assert Disjoint(cats[a + 1].1, cats[b + 1].1);
          }
        }
      }
    }
  }

  lemma Total()
    ensures TotalMetrics(Categories) == 34
  {
    assert TotalMetrics(Categories[6..]) == 0;
    assert TotalMetrics(Categories[5..]) == 1;
    assert TotalMetrics(Categories[4..]) == 4;
    assert TotalMetrics(Categories[3..]) == 17;
    assert TotalMetrics(Categories[2..]) == 24;
    assert TotalMetrics(Categories[1..]) == 31;
  }

  lemma CategoriesNoDup()
    ensures EachNoDup(Categories)
  {
    forall c | 0 <= c < 6 ensures NoDup(Categories[c].1) {
      if c == 3 { ActivityNoDup(); }
    }
  }

  lemma ActivityNoDup()
    ensures NoDup(Categories[3].1)
  {
  }

  lemma CategoriesDisjoint()
    ensures PairwiseDisjoint(Categories)
  {
    MarketDisjoint();
    BlocksDisjoint();
    MiningDisjoint();
    ActivityDisjoint();
    SignalsDisjoint();
  }

  lemma MarketDisjoint()
    ensures forall b :: 0 < b < 6 ==> Disjoint(Categories[0].1, Categories[b].1)
  {
  }

  lemma BlocksDisjoint()
    ensures forall b :: 1 < b < 6 ==> Disjoint(Categories[1].1, Categories[b].1)
  {
    BlocksMiningDisjoint();
    BlocksActivityDisjoint();
  }

  lemma BlocksActivityDisjoint()
    ensures Disjoint(Categories[1].1, Categories[3].1)
  {
    BlocksActivityHead();
    BlocksActivityTail();
    DisjointFromHalves(Categories[1].1, Categories[3].1, 7);
  }

  lemma BlocksActivityHead()
    ensures Disjoint(Categories[1].1, Categories[3].1[..7])
  {
  }

  lemma BlocksActivityTail()
    ensures Disjoint(Categories[1].1, Categories[3].1[7..])
  {
  }

  lemma BlocksMiningDisjoint()
    ensures Disjoint(Categories[1].1, Categories[2].1)
  {
  }

  /** A list shares nothing with `b` when it shares nothing with either half of `b`. */
  lemma DisjointFromHalves(a: seq<string>, b: seq<string>, n: nat)
    requires n <= |b| && Disjoint(a, b[..n]) && Disjoint(a, b[n..])
    ensures Disjoint(a, b)
  {
    assert b == b[..n] + b[n..];
  }

  lemma MiningDisjoint()
    ensures forall b :: 2 < b < 6 ==> Disjoint(Categories[2].1, Categories[b].1)
  {
    MiningActivityHead();
    MiningActivityTail();
    DisjointFromHalves(Categories[2].1, Categories[3].1, 7);
    MiningSignalsAndSupply();
  }

  lemma MiningActivityHead()
    ensures Disjoint(Categories[2].1, Categories[3].1[..7])
  {
  }

  lemma MiningActivityTail()
    ensures Disjoint(Categories[2].1, Categories[3].1[7..])
  {
  }

  lemma MiningSignalsAndSupply()
    ensures Disjoint(Categories[2].1, Categories[4].1) && Disjoint(Categories[2].1, Categories[5].1)
  {
  }

  lemma ActivityDisjoint()
    ensures forall b :: 3 < b < 6 ==> Disjoint(Categories[3].1, Categories[b].1)
  {
  }

  lemma SignalsDisjoint()
    ensures Disjoint(Categories[4].1, Categories[5].1)
  {
  }

  /**
   * The lookup gives the mapped name when there is one and the id itself
   * otherwise; every catalogued id has a mapped name.
   */
  lemma DisplayNameOfCatalogued(id: string)
    ensures id in AllIds(Categories) ==> id in DisplayNames && DisplayName(id) == DisplayNames[id]
    ensures id !in DisplayNames ==> DisplayName(id) == id
  {
    InAllIds(Categories, id);
    NamedIds();
  }

  /** Each id of `ids` has a descriptive name. */
  predicate Named(ids: seq<string>) {
    forall id :: id in ids ==> id in DisplayNames
  }

  lemma NamedIds()
    ensures forall c, id :: 0 <= c < 6 && id in Categories[c].1 ==> id in DisplayNames
  {
    forall c | 0 <= c < 6 ensures Named(Categories[c].1) {
      if c == 0 {
        NamedMarket();
      } else if c == 1 {
        NamedBlocks();
      } else if c == 2 {
        NamedMining();
      } else if c == 3 {
        NamedActivity();
      } else {
        NamedSignalsAndSupply();
      }
    }
  }

  lemma NamedMarket()
    ensures Named(Categories[0].1)
  {
  }

  lemma NamedBlocks()
    ensures Named(Categories[1].1)
  {
  }

  lemma NamedMining()
    ensures Named(Categories[2].1)
  {
  }

  lemma NamedActivity()
    ensures Named(Categories[3].1)
  {
  }

  lemma NamedSignalsAndSupply()
    ensures Named(Categories[4].1) && Named(Categories[5].1)
  {
  }
}
