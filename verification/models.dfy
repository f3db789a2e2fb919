/** The record shapes: the dictionary keys the scraper emits and the schemas of models.py. */
module Models {
  import opened Wrappers

  /** Every dictionary key used by scrapper.py and models.py. */
  datatype Key =
    | Nombre | Simbolo | UltimoPrecio | MontoEfectivo | Variacion | TitulosNegociados
    | Operaciones | MontoEnEfectivoBs | Hora24
    | Hora

  /** The literal key string of each key. */
  function KeyName(k: Key): string
  {
    match k
    case Nombre => "nombre"
    case Simbolo => "simbolo"
    case UltimoPrecio => "ultimo_precio"
    case MontoEfectivo => "monto_efectivo"
    case Variacion => "variacion"
    case TitulosNegociados => "titulos_negociados"
    case Operaciones => "operaciones"
    case MontoEnEfectivoBs => "monto_en_efectivo_bs"
    case Hora24 => "hora_24"
    case Hora => "hora"
  }

  /** Distinct keys have distinct key strings, so the enum loses nothing of the string keys. */
  lemma KeyNameInjective(a: Key, b: Key)
    ensures KeyName(a) == KeyName(b) <==> a == b
  {
  }

  /** A Python dictionary built by `dict(zip(...))`: its entries in insertion order. */
  type Record = seq<(Key, string)>

  ghost predicate DistinctKeys(keys: seq<Key>)
  {
    forall i, j :: 0 <= i < j < |keys| ==> keys[i] != keys[j]
  }

  function KeysOf(rec: Record): (ks: seq<Key>)
    ensures |ks| == |rec|
    ensures forall i :: 0 <= i < |rec| ==> ks[i] == rec[i].0
  {
    seq(|rec|, i requires 0 <= i < |rec| => rec[i].0)
  }

  function ValuesOf(rec: Record): (vs: seq<string>)
    ensures |vs| == |rec|
    ensures forall i :: 0 <= i < |rec| ==> vs[i] == rec[i].1
  {
    seq(|rec|, i requires 0 <= i < |rec| => rec[i].1)
  }

  /** A record is a genuine dictionary when no key occurs twice. */
  ghost predicate IsDict(rec: Record)
  {
    DistinctKeys(KeysOf(rec))
  }

  /** Dictionary lookup `rec.get(k)`. */
  function Get(rec: Record, k: Key): (r: Option<string>)
    ensures r.None? <==> k !in KeysOf(rec)
    ensures r.Some? ==> exists i :: 0 <= i < |rec| && rec[i] == (k, r.value)
  {
    if |rec| == 0 then None
    else if rec[0].0 == k then Some(rec[0].1)
    else Get(rec[1..], k)
  }

  lemma {:induction false} GetAt(rec: Record, i: nat)
    requires IsDict(rec)
    requires i < |rec|
    ensures Get(rec, rec[i].0) == Some(rec[i].1)
    decreases i
  {
    if i > 0 {
      assert KeysOf(rec)[0] != KeysOf(rec)[i];
      assert IsDict(rec[1..]) by {
        forall a, b | 0 <= a < b < |rec| - 1
          ensures KeysOf(rec[1..])[a] != KeysOf(rec[1..])[b]
        {
          assert KeysOf(rec)[a + 1] != KeysOf(rec)[b + 1];
        }
      }
      GetAt(rec[1..], i - 1);
    }
  }

  /** models.py BasicStock: one row of the market summary table. */
  datatype BasicStock = BasicStock(
    nombre: string,
    simbolo: string,
    ultimoPrecio: string,
    montoEfectivo: string,
    variacion: string,
    titulosNegociados: string)

  /** models.py StockDetail: the expanded per-symbol record. */
  datatype StockDetail = StockDetail(
    descSimbolo: string,
    codSimbolo: string,
    codIsin: string,
    accionesCirculacion: string,
    capitalizacionEnMill: string,
    moneda: string,
    estado: string,
    ultimoPrecio: string,
    cierreAnterior: string,
    operacionesDelDia: string,
    titulosDelDia: string,
    efectivoDelDia: string,
    operacionesAnual: string,
    titulosAnual: string,
    efectivoAnual: string)

  /** models.py RentaVariable: the exchange-wide summary; note its last field is `hora`. */
  datatype RentaVariable = RentaVariable(
    operaciones: string,
    titulosNegociados: string,
    montoEnEfectivoBs: string,
    hora: string)

  /** The fields of BasicStock, in declaration order. */
  const BasicStockFields: seq<Key> := [Nombre, Simbolo, UltimoPrecio, MontoEfectivo, Variacion, TitulosNegociados]

  /** The fields of RentaVariable, in declaration order. */
  const RentaVariableFields: seq<Key> := [Operaciones, TitulosNegociados, MontoEnEfectivoBs, Hora]

  /** Reading a scraped dictionary as a BasicStock: every schema field must be present. */
  function ToBasicStock(rec: Record): (r: Option<BasicStock>)
    ensures r.Some? <==> forall k :: k in BasicStockFields ==> k in KeysOf(rec)
    ensures r.Some? ==>
      && Get(rec, Nombre) == Some(r.value.nombre)
      && Get(rec, Simbolo) == Some(r.value.simbolo)
      && Get(rec, UltimoPrecio) == Some(r.value.ultimoPrecio)
      && Get(rec, MontoEfectivo) == Some(r.value.montoEfectivo)
      && Get(rec, Variacion) == Some(r.value.variacion)
      && Get(rec, TitulosNegociados) == Some(r.value.titulosNegociados)
  {
    match (Get(rec, Nombre), Get(rec, Simbolo), Get(rec, UltimoPrecio), Get(rec, MontoEfectivo), Get(rec, Variacion), Get(rec, TitulosNegociados))
    case (Some(a), Some(b), Some(c), Some(d), Some(e), Some(f)) => Some(BasicStock(a, b, c, d, e, f))
    case _ => None
  }

  /** Reading a scraped dictionary as a RentaVariable: every schema field must be present. */
  function ToRentaVariable(rec: Record): (r: Option<RentaVariable>)
    ensures r.Some? <==> forall k :: k in RentaVariableFields ==> k in KeysOf(rec)
    ensures r.Some? ==>
      && Get(rec, Operaciones) == Some(r.value.operaciones)
      && Get(rec, TitulosNegociados) == Some(r.value.titulosNegociados)
      && Get(rec, MontoEnEfectivoBs) == Some(r.value.montoEnEfectivoBs)
      && Get(rec, Hora) == Some(r.value.hora)
  {
    match (Get(rec, Operaciones), Get(rec, TitulosNegociados), Get(rec, MontoEnEfectivoBs), Get(rec, Hora))
    case (Some(a), Some(b), Some(c), Some(d)) => Some(RentaVariable(a, b, c, d))
    case _ => None
  }

  /** A dictionary missing any schema field is rejected. */
  lemma MissingBasicStockField(rec: Record, k: Key)
    requires k in BasicStockFields && k !in KeysOf(rec)
    ensures ToBasicStock(rec) == None
  {
  }

  lemma MissingRentaVariableField(rec: Record, k: Key)
    requires k in RentaVariableFields && k !in KeysOf(rec)
    ensures ToRentaVariable(rec) == None
  {
  }
}
