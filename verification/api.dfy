/**
 * The detail lookup of main.py's `get_accion_detalle`. The loaded detail snapshot is a parameter;
 * reading and decoding the JSON file is not modelled.
 */
module Api {
  import opened Models

  /** Either the first matching detail record, or the `{'message': 'Stock not found'}` reply. */
  datatype LookupResult = Found(detail: StockDetail) | NotFound(message: string)

  /** The message of the not-found reply. */
  const NotFoundMessage := "Stock not found"

  /** `str.upper` restricted to ASCII: only 'a'..'z' change. */
  function UpperChar(c: char): (u: char)
    ensures 'a' <= c <= 'z' ==> 'A' <= u <= 'Z' && u as int == c as int - 32
    ensures !('a' <= c <= 'z') ==> u == c
  {
    if 'a' <= c <= 'z' then (c as int - 32) as char else c
  }

  function Upper(s: string): (r: string)
    ensures |r| == |s|
    ensures forall i :: 0 <= i < |s| ==> r[i] == UpperChar(s[i])
  {
    seq(|s|, i requires 0 <= i < |s| => UpperChar(s[i]))
  }

  /** A string with no lower-case ASCII letter. */
  predicate IsUpper(s: string)
  {
    forall i :: 0 <= i < |s| ==> !('a' <= s[i] <= 'z')
  }

  /** Upper-casing yields an upper-case string, and leaves upper-case strings alone. */
  lemma UpperIsUpper(s: string)
    ensures IsUpper(Upper(s))
    ensures IsUpper(s) <==> Upper(s) == s
  {
    if Upper(s) == s {
      forall i | 0 <= i < |s|
        ensures !('a' <= s[i] <= 'z')
      {
        assert Upper(s)[i] == UpperChar(s[i]);
      }
    }
  }

  lemma UpperIdempotent(s: string)
    ensures Upper(Upper(s)) == Upper(s)
  {
    UpperIsUpper(Upper(s));
    UpperIsUpper(s);
  }

  /** The `for stock in data` scan: the first record whose code equals `code` exactly. */
  function FindByCode(data: seq<StockDetail>, code: string): (r: LookupResult)
    ensures r.Found? ==> r.detail in data && r.detail.codSimbolo == code
    ensures r.NotFound? <==> forall i :: 0 <= i < |data| ==> data[i].codSimbolo != code
    ensures r.NotFound? ==> r.message == NotFoundMessage
  {
    if |data| == 0 then NotFound(NotFoundMessage)
    else if data[0].codSimbolo == code then Found(data[0])
    else FindByCode(data[1..], code)
  }

  /** The first match wins: later records carrying the same code are never returned. */
  lemma {:induction false} FindByCodeFirst(data: seq<StockDetail>, code: string, i: nat)
    requires i < |data| && data[i].codSimbolo == code
    requires forall j :: 0 <= j < i ==> data[j].codSimbolo != code
    ensures FindByCode(data, code) == Found(data[i])
    decreases i
  {
    if i > 0 {
      FindByCodeFirst(data[1..], code, i - 1);
    }
  }

  /** get_accion_detalle: upper-case the query, then scan the snapshot. */
  function Lookup(query: string, data: seq<StockDetail>): (r: LookupResult)
    ensures r.Found? ==> r.detail in data && r.detail.codSimbolo == Upper(query)
    ensures r.NotFound? <==> forall i :: 0 <= i < |data| ==> data[i].codSimbolo != Upper(query)
    ensures r.NotFound? ==> r.message == NotFoundMessage
  {
    FindByCode(data, Upper(query))
  }

  /** The query's case does not matter. */
  lemma LookupCaseInsensitive(query: string, data: seq<StockDetail>)
    ensures Lookup(query, data) == Lookup(Upper(query), data)
  {
    UpperIdempotent(query);
  }

  /** A stored code with a lower-case letter is never matched, whatever the query. */
  lemma LowerCaseCodeUnreachable(query: string, data: seq<StockDetail>, d: StockDetail)
    requires !IsUpper(d.codSimbolo)
    ensures Lookup(query, data) != Found(d)
  {
    UpperIsUpper(query);
  }

  /** The same lookup as the source's loop, with the index of the record it returns. */
  method GetAccionDetalle(query: string, data: seq<StockDetail>) returns (r: LookupResult, index: int)
    ensures r == Lookup(query, data)
    ensures r.Found? <==> 0 <= index < |data|
    ensures r.Found? ==> r.detail == data[index] && data[index].codSimbolo == Upper(query)
    ensures r.Found? ==> forall j :: 0 <= j < index ==> data[j].codSimbolo != Upper(query)
    ensures r.NotFound? ==> index == -1 && forall j :: 0 <= j < |data| ==> data[j].codSimbolo != Upper(query)
  {
    var code := Upper(query);
    var i := 0;
    while i < |data|
      invariant 0 <= i <= |data|
      invariant forall j :: 0 <= j < i ==> data[j].codSimbolo != code
    {
      if data[i].codSimbolo == code {
        LookupFirst(query, data, i);
        return Found(data[i]), i;
      }
      i := i + 1;
    }
    return NotFound(NotFoundMessage), -1;
  }

  /** The lookup returns the record at the first index whose code matches the upper-cased query. */
  lemma LookupFirst(query: string, data: seq<StockDetail>, i: nat)
    requires i < |data| && data[i].codSimbolo == Upper(query)
    requires forall j :: 0 <= j < i ==> data[j].codSimbolo != Upper(query)
    ensures Lookup(query, data) == Found(data[i])
  {
    FindByCodeFirst(data, Upper(query), i);
  }

  function Detail(desc: string, code: string): StockDetail
  {
    StockDetail(desc, code, "", "", "", "", "", "", "", "", "", "", "", "", "")
  }

  /** Example: `bvl` finds the stored `BVL` record and `ZZZ` finds nothing. */
  lemma BvlExample()
    ensures var data := [Detail("Bco. Provincial", "BPV"), Detail("Bco. de Venezuela", "BVL")];
      && Lookup("bvl", data) == Found(data[1])
      && Lookup("ZZZ", data) == NotFound(NotFoundMessage)
  {
    var data := [Detail("Bco. Provincial", "BPV"), Detail("Bco. de Venezuela", "BVL")];
    assert Upper("bvl") == "BVL";
    assert Upper("ZZZ") == "ZZZ";
    FindByCodeFirst(data, "BVL", 1);
  }
}
