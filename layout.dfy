/** How the two handlers' presence checks relate. The inference handler
    derives the directory from the model id and the rest from the catalog;
    the download handler takes directory, version, file name and size from
    its caller. They look at the same file exactly when the caller passes
    what the catalog and the id derivation give. */
module Layout {
  import opened Common
  import opened Paths
  import opened Catalog
  import opened LlmInference
  import opened ModelDownload

  /** The download-handler arguments that describe a catalogued model. */
  function CheckArgsFor(modelId: string, record: ModelRecord): CheckArgs {
    CheckArgs(record.modelFile, Some(StorageDir(modelId)), Some(record.version.GetOr(DefaultVersion)),
              record.sizeInBytes)
  }

  /** For a catalogued model with a file name and a size, both handlers
      give the same answer when the download side is called with the
      derived directory, the catalogued version (or "main") and the
      catalogued file name and size. */
  lemma HandlersAgreeOnPresence(fs: FileSystem, root: string, doc: CatalogDocument, modelId: string)
    requires Lookup(doc, modelId).Some?
    requires Lookup(doc, modelId).value.modelFile.Some? && Lookup(doc, modelId).value.sizeInBytes.Some?
    ensures IsModelDownloaded(fs, root, doc, Some(modelId))
         == CheckIfModelDownloaded(fs, root, CheckArgsFor(modelId, Lookup(doc, modelId).value))
  {
  }

  /** Conversely, with single-segment versions and no empty part, a
      download-side check looks at a catalogued model's file only when it
      names the derived directory, the same version and the same file name. */
  lemma SameFileOnlyForSameArguments(root: string, modelId: string, record: ModelRecord, args: CheckArgs)
    requires record.modelFile.Some?
    requires args.fileName.Some? && args.modelDir.Some? && args.version.Some?
    requires '/' !in args.modelDir.value && '/' !in args.version.value
    requires '/' !in record.version.GetOr(DefaultVersion)
    requires StorageDir(modelId) != "" && record.version.GetOr(DefaultVersion) != "" && record.modelFile.value != ""
    requires args.modelDir.value != "" && args.version.value != "" && args.fileName.value != ""
    requires ModelPath(root, modelId, record.modelFile.value, record.version)
          == JoinPath(root, args.modelDir.value, args.version.value, args.fileName.value)
    ensures args.modelDir.value == StorageDir(modelId)
    ensures args.version.value == record.version.GetOr(DefaultVersion)
    ensures args.fileName == record.modelFile
  {
    StorageDirIsOneSegment(modelId);
    JoinPathInjective(root, StorageDir(modelId), record.version.GetOr(DefaultVersion), record.modelFile.value,
                      args.modelDir.value, args.version.value, args.fileName.value);
  }

  /** The id derivation is not one-to-one: `google/<name>` and `<name>`
      share a directory, so with equal versions and file names the two
      models are looked for in the same file. */
  lemma VendorAndPlainIdsShareFiles(root: string, name: string, fileName: string, version: Option<string>)
    requires '/' !in name
    requires forall i: nat :: !OccursAt(name, VendorPart, i)
    ensures ModelPath(root, "google/" + name, fileName, version) == ModelPath(root, name, fileName, version)
  {
    StorageDirStripsVendor(name);
    StorageDirOfPlainId(name);
  }
}
