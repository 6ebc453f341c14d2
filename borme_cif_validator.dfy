/** Fallback CIF provider over a local BORME (Spanish mercantile registry)
    index mapping each CIF to the company's fields ("razon_social",
    "estado"). The index is handed in, as the constructor receives it. */
module BormeCifValidator {
  import opened Wrappers
  import opened Text
  import opened ApiBase

  const SourceName: string := "borme"
  const UnknownState: string := "UNKNOWN"

  type Entry = map<string, string>
  type Index = map<string, Entry>

  /** `index or {}`: a missing index is an empty one. */
  function IndexOrEmpty(index: Option<Index>): (r: Index)
    ensures index.None? ==> r == map[]
    ensures index.Some? ==> r == index.value
  {
    index.GetOr(map[])
  }

  /** An absent key and an empty entry are both a miss (`if not info`). */
  predicate Hit(index: Index, key: string) {
    key in index && index[key] != map[]
  }

  function Validate(index: Index, cif: string): (r: CifResult)
    ensures r.valid == r.inRegistry
    ensures r.valid <==> Hit(index, UpperStripped(cif))
    ensures r.source == SourceName
    ensures r.extra == Some(map["normalized" := UpperStripped(cif)])
    ensures !r.valid ==> r.razonSocial.None? && r.estado == Some(UnknownState)
    ensures r.valid ==> (r.razonSocial.Some? <==> "razon_social" in index[UpperStripped(cif)])
    ensures r.valid && r.razonSocial.Some? ==> r.razonSocial.value == index[UpperStripped(cif)]["razon_social"]
    ensures r.valid ==> r.estado.Some?
    ensures r.valid && "estado" in index[UpperStripped(cif)] ==> r.estado.value == index[UpperStripped(cif)]["estado"]
    ensures r.valid && "estado" !in index[UpperStripped(cif)] ==> r.estado.value == UnknownState
  {
    var normalized := UpperStripped(cif);
    var extra := Some(map["normalized" := normalized]);
    if !Hit(index, normalized) then
      CifResult(false, false, None, SourceName, Some(UnknownState), extra)
    else
      var info := index[normalized];
      var razonSocial := if "razon_social" in info then Some(info["razon_social"]) else None;
      var estado := if "estado" in info then info["estado"] else UnknownState;
      CifResult(true, true, razonSocial, SourceName, Some(estado), extra)
  }

  /** With the default empty index every CIF is reported invalid. */
  lemma EmptyIndexRejectsAll(cif: string)
    ensures !Validate(IndexOrEmpty(None), cif).valid
    ensures Validate(IndexOrEmpty(None), cif).estado == Some(UnknownState)
  {
  }

  /** The lookup key is stripped and upper-cased, so the case and the
      surrounding whitespace of the input do not matter. */
  lemma LookupIgnoresCase(index: Index, cif: string)
    ensures Validate(index, Lower(cif)) == Validate(index, cif)
  {
    StripLower(cif);
    UpperOfLower(Strip(cif));
  }

  lemma LookupIgnoresPadding(index: Index, cif: string)
    ensures Validate(index, Strip(cif)) == Validate(index, cif)
  {
    StripIdempotent(cif);
  }

  /** Adding an entry under another key leaves the verdict unchanged. */
  lemma OtherEntriesIrrelevant(index: Index, key: string, e: Entry, cif: string)
    requires key != UpperStripped(cif)
    ensures Validate(index[key := e], cif) == Validate(index, cif)
  {
  }

  /** Registering a company makes its (normalised) CIF valid and reports
      the registered name. */
  lemma RegisteredIsFound(index: Index, cif: string, name: string)
    ensures var r := Validate(index[UpperStripped(cif) := map["razon_social" := name]], cif);
      r.valid && r.inRegistry && r.razonSocial == Some(name) && r.estado == Some(UnknownState)
  {
    var e := map["razon_social" := name];
    assert "razon_social" in e;
  }
}
