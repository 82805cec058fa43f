/**
 Ingesting a file (src/lightworker/rag.py): extraction and chunking between the two transactions on the index.
 Extraction and the embedding provider are parameters; a provider that fails returns no vectors.
 */
module RagIngest {
  import opened RagIndex
  import opened RagChunks

  class FileIndex {
    const scope: string
    const model: string
    const enabled: bool
    const config: Config
    const blank: Blank
    const extract: (string, string) -> string
    const embed: seq<string> -> seq<Vector>
    const database: Database

    constructor (scope: string, model: string, enabled: bool, config: Config, blank: Blank,
                 extract: (string, string) -> string, embed: seq<string> -> seq<Vector>, database: Database)
      ensures this.scope == scope && this.model == model && this.enabled == enabled && this.config == config
      ensures this.blank == blank && this.extract == extract && this.embed == embed && this.database == database
    {
      this.scope, this.model, this.enabled, this.config := scope, model, enabled, config;
      this.blank, this.extract, this.embed, this.database := blank, extract, embed, database;
    }

    /** What chunking a file anew would give. */
    ghost function Split(): Split
      requires config.tokens > 0
    {
      (path, raw) => Chunks(extract(path, raw), config, blank)
    }

    /**
     `_ingest_file` of a supported file: afterwards the index holds exactly the chunks of this content under this
     path, whether or not it was already indexed, and everything else it held before.
     */
    method IngestFile(path: string, raw: string, ghost library: Library) returns (skipped: bool, chunkCount: nat)
      requires config.tokens > 0
      requires Good(database.Rows(), Split()) && Represents(database.documents, library)
      modifies database
      ensures Good(database.Rows(), Split()) && Represents(database.documents, library[(scope, path) := raw])
      ensures chunkCount == |Chunks(extract(path, raw), config, blank)|
      ensures skipped ==> database.Rows() == old(database.Rows())
      ensures !skipped ==>
                var texts := Chunks(extract(path, raw), config, blank);
                Embeds(database.Rows(), IdOf(old(database.Rows()), scope, path), scope, model,
                       if enabled && texts != [] then embed(texts) else [])
      ensures match Find(old(database.documents), scope, path)
              case None => !skipped
              case Some(d) => skipped == IsUnchanged(old(database.Rows()), d, raw, enabled, model)
    {
      var current := database.Check(scope, path, raw, enabled, model);
      if current.Some? {
        SkippingIsSafe(database.Rows(), Split(), library, Find(database.documents, scope, path).value, scope, path, raw,
                       enabled, model);
        return true, current.value.0;
      }
      var text := extract(path, raw);
      var texts := Chunk(text, config, blank);
      var vectors := if enabled && texts != [] then embed(texts) else [];
      IngestedEmbeds(database.Rows(), Split(), scope, path, raw, texts, model, vectors);
      IngestedIsGood(database.Rows(), Split(), scope, path, raw, model, vectors);
      IngestingUpdatesLibrary(database.Rows(), library, scope, path, raw);
      database.Replace(scope, path, raw, texts, model, vectors);
      return false, |texts|;
    }
  }
}
