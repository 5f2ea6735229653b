/** The model allow-list the inference handler consults
    (`getModelConfig`): a document listing one record per model, searched
    for the first record whose id equals the one asked for. */
module Catalog {
  import opened Common

  /** One element of the document's "models" array. A field that is absent
      (or cannot be read as the expected type) is `None`. */
  datatype ModelRecord = ModelRecord(
    modelId: Option<string>,
    modelFile: Option<string>,
    version: Option<string>,
    sizeInBytes: Option<int>)

  /** The allow-list asset: `None` when it cannot be opened or parsed, or
      has no "models" array; otherwise its records in document order. */
  type CatalogDocument = Option<seq<ModelRecord>>

  /** The scan over the records. Reading the id of a record that has none
      throws, and the exception ends the whole lookup with no result. */
  function FirstMatch(records: seq<ModelRecord>, modelId: string): (found: Option<ModelRecord>)
    ensures found.Some? ==> found.value in records && found.value.modelId == Some(modelId)
  {
    if records == [] then None
    else if records[0].modelId.None? then None
    else if records[0].modelId.value == modelId then Some(records[0])
    else FirstMatch(records[1..], modelId)
  }

  /** `getModelConfig(modelId)` on a given document. */
  function Lookup(doc: CatalogDocument, modelId: string): (found: Option<ModelRecord>)
    ensures found.Some? ==> doc.Some? && found.value in doc.value && found.value.modelId == Some(modelId)
  {
    match doc
    case None => None
    case Some(records) => FirstMatch(records, modelId)
  }

  /** A record the scan reads and passes over. */
  predicate PassedOver(record: ModelRecord, modelId: string) {
    record.modelId.Some? && record.modelId.value != modelId
  }

  /** Record `k` carries the id and every record before it is passed over. */
  ghost predicate FirstAt(records: seq<ModelRecord>, modelId: string, k: int) {
    && 0 <= k < |records|
    && records[k].modelId == Some(modelId)
    && forall j :: 0 <= j < k ==> PassedOver(records[j], modelId)
  }

  /** The scan answers with the record at the first position carrying the
      id, provided every record before it has a readable id; it answers
      nothing in every other case. */
  lemma {:induction false} FirstMatchIsFirst(records: seq<ModelRecord>, modelId: string)
    ensures FirstMatch(records, modelId).Some? ==>
      exists k :: FirstAt(records, modelId, k) && FirstMatch(records, modelId) == Some(records[k])
    ensures forall k :: FirstAt(records, modelId, k) ==> FirstMatch(records, modelId) == Some(records[k])
  {
    if records != [] && PassedOver(records[0], modelId) {
      var rest := records[1..];
      FirstMatchIsFirst(rest, modelId);
      if FirstMatch(rest, modelId).Some? {
        var k :| FirstAt(rest, modelId, k) && FirstMatch(rest, modelId) == Some(rest[k]);
        assert FirstAt(records, modelId, k + 1);
      }
      forall k | FirstAt(records, modelId, k)
        ensures FirstMatch(records, modelId) == Some(records[k])
      {
        assert k != 0;
        assert FirstAt(rest, modelId, k - 1);
      }
    } else if records != [] && records[0].modelId == Some(modelId) {
      assert FirstAt(records, modelId, 0);
    }
  }

  /** In a document whose records all have ids, the lookup finds nothing
      exactly when no record carries the id. */
  lemma {:induction false} FirstMatchMissesOnlyAbsentIds(records: seq<ModelRecord>, modelId: string)
    requires forall j :: 0 <= j < |records| ==> records[j].modelId.Some?
    ensures FirstMatch(records, modelId).None? <==>
      forall j :: 0 <= j < |records| ==> records[j].modelId != Some(modelId)
  {
    if records != [] {
      FirstMatchMissesOnlyAbsentIds(records[1..], modelId);
      if records[0].modelId != Some(modelId) {
        forall j | 1 <= j < |records| ensures records[j] == records[1..][j - 1] { }
      }
    }
  }

  /** `getModelConfig`: read the document, then walk its records in order
      and return the first whose id matches; a record without a readable
      id ends the walk with nothing. */
  method GetModelConfig(doc: CatalogDocument, modelId: string) returns (config: Option<ModelRecord>)
    ensures config == Lookup(doc, modelId)
    ensures config.Some? ==> doc.Some? && config.value in doc.value && config.value.modelId == Some(modelId)
  {
    if doc.None? {
      return None;
    }
    var models := doc.value;
    var i := 0;
    while i < |models|
      invariant 0 <= i <= |models|
      invariant FirstMatch(models, modelId) == FirstMatch(models[i..], modelId)
    {
      var model := models[i];
      assert models[i..][0] == model && models[i..][1..] == models[i + 1..];
      if model.modelId.None? {
        return None;
      }
      if model.modelId.value == modelId {
        return Some(model);
      }
      i := i + 1;
    }
    return None;
  }
}
