# Bolsa de Valores de Caracas API — data-shaping core in Dafny

This project models the pure logic of a small market-data service for the Caracas stock exchange.
A scraper reads two tables from the exchange's web page and turns their cells into JSON records.
An HTTP API serves those records and looks up per-symbol detail records.
The browser, the HTML parser, the file system and the web framework are stripped away; what is left is three functional pieces:

1. **Table-cell grouping** (`get_stocks`, `get_renta_variable` in scrapper.py), module `Scrapper`.
   Each extractor receives the ordered list of `<td>` cells of its table as `seq<Option<string>>`: a cell is `None` when BeautifulSoup's `.string` is `None` (an empty cell, or one with several children).
   Both extractors drop the `None` cells (`Compact`).
   `get_stocks` cuts what is left into consecutive slices of six and zips each with the six summary keys (`Chunks`, `GetStocks`).
   `get_renta_variable` zips everything left with the four renta keys and wraps the record in a one-element list (`GetRentaVariable`).
   Python's `zip` truncates (`Zip`), so a cell count that is not a multiple of six gives a short last record, not an error.
2. **Text normalisers** (`remove_dots`, `remove_quotes` in utils.py), module `Utils`: deletion of every occurrence of one character (`Delete`).
3. **Detail lookup** (the body of `get_accion_detalle` in main.py), module `Api`: upper-case the query, return the first detail record whose `cod_simbolo` equals it exactly, otherwise the not-found reply (`Lookup`, and the loop form `GetAccionDetalle`).

Module `Models` holds the record shapes of models.py and the dictionary keys the scraper emits.
A scraped record is `seq<(Key, string)>`, a Python dictionary in insertion order; `IsDict` says no key repeats, and the key lists are proved distinct, so nothing is lost by the sequence form.
`ToBasicStock` and `ToRentaVariable` read such a dictionary as the schema datatype when every schema field is present.
Module `Wrappers` holds `Option` and `Min`.

Behaviour of the code a reader might not expect:

- A filtered cell count that is not a multiple of six is not rejected: the last stock record is short (`StocksShape`, `ShortLastRecord`). `WellFormed` names the multiple-of-six case, and `WellFormedIffComplete` proves it is exactly the case in which every record is complete.
- An empty renta table still yields a one-element list holding an empty record, not an empty list (`GetRentaVariable`).
- The lookup only upper-cases the query. Stored codes are compared exactly and are not normalised, so a stored code with a lower-case letter can never be found (`LowerCaseCodeUnreachable`). `remove_dots` is not applied anywhere in the lookup.
- models.py names the last renta field `hora`, while the scraper emits `hora_24`. The scraped renta record therefore never reads as a `RentaVariable` (`RentaRecordShape`).

## Model

| member | source | states |
|---|---|---|
| Utils.Delete | utils.py:4-8 | the result holds no occurrence of the deleted character; its multiset is the input's with that character's count set to zero; it is shorter by exactly the number of occurrences; it is a subsequence of the input |
| Utils.DeleteCharacterized | utils.py:5 | a string equals the deletion result if and only if it is a subsequence of the input holding exactly the input's other characters, so the other characters keep their order |
| Utils.RemoveDots | utils.py:4-5 | the output has no '.', keeps every other character with its multiplicity, is shorter by the count of '.', and keeps the input's order |
| Utils.RemoveQuotes | utils.py:7-8 | the output has no '"', keeps every other character with its multiplicity, is shorter by the count of '"', and keeps the input's order |
| Utils.RemoveDotsIdempotent | utils.py:4-5 | removing dots twice is the same as removing them once |
| Utils.RemoveDotsUnchanged | utils.py:4-5 | a string without '.' is returned unchanged |
| Utils.RemoveDotsAppend | utils.py:4-5 | removing dots distributes over concatenation |
| Utils.RemoveQuotesIdempotent | utils.py:7-8 | removing quotes twice is the same as removing them once |
| Utils.RemoveQuotesUnchanged | utils.py:7-8 | a string without '"' is returned unchanged |
| Utils.RemoveQuotesAppend | utils.py:7-8 | removing quotes distributes over concatenation |
| Utils.RemoveDotsQuotesCommute | utils.py:4-8 | the two normalisers commute |
| Models.ToBasicStock | models.py:3-9 | a scraped dictionary reads as a BasicStock exactly when all six schema fields are present, and each field of the result is the dictionary's value under that key |
| Models.ToRentaVariable | models.py:28-32 | a scraped dictionary reads as a RentaVariable exactly when all four schema fields, `hora` included, are present, and each field is the dictionary's value under that key |
| Scrapper.Compact | scrapper.py:38 | the filtered list is no longer than the table and every kept text comes from a `Some` cell; the full characterisation is in CompactLength, CompactMembers and CompactAppend |
| Scrapper.CompactLength | scrapper.py:35-38 | filtering keeps exactly as many cells as there are non-`None` cells |
| Scrapper.CompactMembers | scrapper.py:38 | a text is in the filtered list exactly when some cell holds it, so `None` never reaches the output |
| Scrapper.CompactAppend | scrapper.py:38 | filtering a concatenation is the concatenation of the filtered parts, so the kept cells stay in table order |
| Scrapper.CompactFilled | scrapper.py:38 | a table with text in every cell keeps every cell, in order |
| Scrapper.Zip | scrapper.py:42 | zip has the length of its shorter argument and pairs the i-th elements |
| Scrapper.Row | scrapper.py:42 | the slice `data[i:i+6]` of a row that starts inside the data holds one to six cells |
| Scrapper.Chunks | scrapper.py:40-44 | the loop over n cells yields ceil(n/6) records |
| Scrapper.ChunkAt | scrapper.py:40-44 | record k of the loop is the zip of the six keys with the slice of cells 6k to 6k+6, which starts inside the data |
| Scrapper.GetStocks | scrapper.py:27-46 | no non-empty cell gives no record; otherwise there are ceil(n/6) records over the n non-empty cells |
| Scrapper.StockFields | scrapper.py:40-44 | record k is the six keys zipped with filtered row k; it has min(6, n-6k) fields and field j is key j paired with filtered cell 6k+j |
| Scrapper.ZipRecord | scrapper.py:42 | a zipped record carries the first min(keys, values) keys and values, each in order, and repeats no key when the key list has no repeat |
| Scrapper.ChunksFlatten | scrapper.py:40-44 | reading the records' values back in order reproduces the cells exactly |
| Scrapper.StocksFlatten | scrapper.py:35-44 | reading the stock records' values back in order gives exactly the non-empty cells, nothing lost or reordered |
| Scrapper.IgnoresEmptyCells | scrapper.py:35-38 | inserting an empty cell anywhere changes neither extractor's output |
| Scrapper.StocksShape | scrapper.py:30-44 | every record but the last has exactly the six keys in order; the last has the first n mod 6 keys when n is not a multiple of six |
| Scrapper.StocksAreDicts | scrapper.py:42 | no stock record repeats a key |
| Scrapper.WellFormedIffComplete | scrapper.py:40-44 | all records carry the six keys if and only if the non-empty cells are a multiple of six |
| Scrapper.FullRowReads | scrapper.py:42 | a full row of six cells reads as the BasicStock of those cells in order |
| Scrapper.PartialRowFails | scrapper.py:42 | a row of fewer than six cells does not read as a BasicStock |
| Scrapper.InnerRowFull | scrapper.py:40-44 | arithmetic helper for StocksShape: a slice start 6k with k+1 below the record count leaves six cells before the end |
| Scrapper.WellFormedBasicStocks | scrapper.py:40-44 | on a well-formed table record k reads as the BasicStock of filtered cells 6k to 6k+5 |
| Scrapper.ShortLastRecord | scrapper.py:40-44 | on a table that is not well formed the last record does not read as a BasicStock |
| Scrapper.GetRentaVariable | scrapper.py:49-64 | the result is always a one-element list; its record has min(n, 4) fields and field j is renta key j paired with filtered cell j |
| Scrapper.RentaValues | scrapper.py:52-61 | the renta record's keys are the first min(n, 4) renta keys and its values are the first min(n, 4) filtered cells, in order; later cells are dropped |
| Scrapper.RentaRecordShape | scrapper.py:52-62 | the renta record repeats no key, never carries `hora`, and so never reads as a RentaVariable |
| Scrapper.TwoRowsExample | scrapper.py:27-46 | twelve non-empty cells give two records, the second being the second row's BasicStock |
| Scrapper.RentaRowExample | scrapper.py:49-64 | four non-empty renta cells give one record carrying all four renta keys |
| Api.UpperChar | main.py:68 | lower-case ASCII letters map to the upper-case letter 32 code points below; every other character is unchanged |
| Api.Upper | main.py:68 | upper-casing keeps the length and upper-cases each character in place |
| Api.UpperIsUpper | main.py:68 | the upper-cased query has no lower-case letter, and a string is left unchanged exactly when it has none |
| Api.UpperIdempotent | main.py:68 | upper-casing twice is upper-casing once |
| Api.FindByCode | main.py:71-75 | a found record belongs to the data and carries the code; the not-found value is returned exactly when no record carries it |
| Api.FindByCodeFirst | main.py:71-73 | the scan returns the record at the first index carrying the code; later duplicates are never returned |
| Api.Lookup | main.py:68-75 | a found record belongs to the data and its code equals the upper-cased query; not found exactly when no record's code equals it; never an error |
| Api.LookupCaseInsensitive | main.py:68 | looking up a query and its upper-cased form give the same result |
| Api.LowerCaseCodeUnreachable | main.py:68-72 | a record whose stored code has a lower-case letter is never returned, whatever the query |
| Api.LookupFirst | main.py:71-73 | the lookup returns the first record whose code equals the upper-cased query |
| Api.GetAccionDetalle | main.py:68-75 | the loop returns the first matching record together with its index, every earlier record differing, or not found with every record differing; it agrees with the recursive lookup |
| Api.BvlExample | main.py:68-75 | a lookup of `bvl` finds the stored `BVL` record and a lookup of `ZZZ` returns not found with the message `Stock not found` |

## Left out

- `scrapp` (scrapper.py:9-24): starting headless Chrome and navigating to the page is a foreign process; the cell lists are parameters instead.
- HTML parsing (`soup.find`, `find_all`, `.string`): the parser is an unseen library; its result enters as the `Option<string>` cells.
- A missing table (`soup.find` returning `None`, then `find_all` raising): not modelled, since it happens in the parser.
- `dump_json`, the `__main__` block, and the `open`/`json.load` calls of main.py: file-system I/O and JSON (de)serialisation.
- The FastAPI application and its routes `get_acciones_list` and `get_renta_variable`, which only return a loaded file.
- Pydantic validation is modelled only as the required-field check: `ToBasicStock` and `ToRentaVariable` accept a dictionary exactly when every schema field is present and ignore extra keys. Type coercion and the routes' response validation (the return-type annotations at main.py:15, main.py:25 and main.py:35) are not modelled.
- A detail record without a `cod_simbolo` key (a `KeyError` in the source): `StockDetail` always has the field.
- Api.Upper: models `str.upper` for ASCII letters only; Unicode case mapping (including length-changing cases such as 'ß') is not modelled.
- pdf_builder.py (ReportLab rendering and the current date) and logger.py (logging configuration).
